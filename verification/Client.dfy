/** The client as a program: the connection object with its thread and callbacks, and the
    client object they share. Each method is proved to do to the fields exactly what the
    corresponding function of `Session`, `Reception`, `Link` or `Supervisor` does to values. */
module Client {
  import opened Protocol
  import opened Exchange
  import opened Reception
  import opened Session
  import opened CommandTable
  import opened Intake
  import opened Publication
  import ExchangeConfig
  import Commands
  import CycleProofs
  import CycleStarts
  import Link
  import QualityProofs
  import SessionLink
  import Supervisor

  class Client {
    const config: ExchangeConfig.Config
    const outstanding: Outstanding
    const signal: string
    var activeConnection: Connection?
    var connStatus: Supervisor.ConnectionStatus
    ghost var changes: seq<Supervisor.ConnectionStatus>
    var giStatus: GiStatus
    var listOfStationGroupDatapoints: seq<Definition>
    var ingested: seq<Ingested>

    /** `signal` is the configured label of the south events. */
    constructor (config: ExchangeConfig.Config, outstanding: Outstanding, signal: string)
      ensures this.config == config && this.outstanding == outstanding && this.signal == signal
      ensures activeConnection == null && connStatus == Supervisor.NotConnected && changes == []
      ensures giStatus == GiIdle && listOfStationGroupDatapoints == [] && ingested == []
    {
      connStatus, changes := Supervisor.NotConnected, [];
      this.config, this.outstanding, this.signal, activeConnection := config, outstanding, signal, null;
      giStatus, listOfStationGroupDatapoints, ingested := GiIdle, [], [];
    }

    /** sendSouthMonitoringEvent, for one of the two statuses. */
    method SendSouthMonitoringEvent(event: Ingested)
      modifies this`ingested
      ensures ingested == old(ingested) + if signal == "" then [] else [event]
    {
      if signal == "" { return; }
      ingested := ingested + [event];
    }

    method UpdateGiStatus(newState: GiStatus)
      modifies this`giStatus, this`ingested
      ensures giStatus == newState
      ensures ingested == old(ingested) +
              if old(giStatus) == newState || signal == "" then [] else [GiEvent(signal, newState)]
    {
      if giStatus == newState { return; }
      giStatus := newState;
      SendSouthMonitoringEvent(GiEvent(signal, newState));
    }

    /** The inner loop: the object addresses of one common address. */
    method AppendRow(row: map<int, Option<Definition>>, ioas: seq<int>, ghost keep: Definition -> bool)
      requires forall d :: keep(d) == InStationGroup(d)
      requires forall i | 0 <= i < |ioas| :: ioas[i] in row
      modifies this`listOfStationGroupDatapoints
      ensures listOfStationGroupDatapoints == old(listOfStationGroupDatapoints) + FromRow(row, ioas, keep)
    {
      hide FromRow;
      var i := 0;
      while i < |ioas|
        invariant 0 <= i <= |ioas|
        invariant listOfStationGroupDatapoints + FromRow(row, ioas[i..], keep)
                  == old(listOfStationGroupDatapoints) + FromRow(row, ioas, keep)
      {
        FromRowStep(row, ioas, i, keep);
        if row[ioas[i]].Some? && InStationGroup(row[ioas[i]].value) {
          listOfStationGroupDatapoints := listOfStationGroupDatapoints + [row[ioas[i]].value];
        }
        i := i + 1;
      }
      FromRowStep(row, ioas, i, keep);
    }

    /** The list of points an interrogation should answer, in map order. */
    method CreateListOfDatapointsInStationGroup()
      modifies this`listOfStationGroupDatapoints
      ensures listOfStationGroupDatapoints == StationGroup(config.definitions)
    {
      listOfStationGroupDatapoints := [];
      var defs := config.definitions;
      AppendRows(defs, Ascending(defs.Keys), d => InStationGroup(d));
    }

    method AppendWholeRow(row: map<int, Option<Definition>>, ghost keep: Definition -> bool)
      requires forall d :: keep(d) == InStationGroup(d)
      modifies this`listOfStationGroupDatapoints
      ensures listOfStationGroupDatapoints ==
              old(listOfStationGroupDatapoints) + FromRow(row, Ascending(row.Keys), keep)
    {
      hide FromRow;
      AppendRow(row, Ascending(row.Keys), keep);
    }

    method AppendRows(defs: Definitions, cas: seq<int>, ghost keep: Definition -> bool)
      requires forall d :: keep(d) == InStationGroup(d)
      requires forall c | 0 <= c < |cas| :: cas[c] in defs
      modifies this`listOfStationGroupDatapoints
      ensures listOfStationGroupDatapoints == old(listOfStationGroupDatapoints) + FromRows(defs, cas, keep)
    {
      hide FromRows, FromRow, Ascending;
      var c := 0;
      while c < |cas|
        invariant 0 <= c <= |cas|
        invariant listOfStationGroupDatapoints + FromRows(defs, cas[c..], keep)
                  == old(listOfStationGroupDatapoints) + FromRows(defs, cas, keep)
      {
        FromRowsStep(defs, cas, c, keep);
        AppendWholeRow(defs[cas[c]], keep);
        c := c + 1;
      }
      FromRowsStep(defs, cas, c, keep);
    }

    /** Quality updates for a list of points, all with the same descriptor. */
    method SendQualityUpdates(points: seq<Definition>, qd: QualityDescriptor)
      modifies this`ingested
      ensures ingested == old(ingested) + QualityUpdates(points, |points|, qd)
    {
      var i := 0;
      while i < |points|
        invariant 0 <= i <= |points|
        invariant ingested == old(ingested) + QualityUpdates(points, i, qd)
      {
        ingested := ingested + [Quality(points[i].tag, points[i], qd)];
        i := i + 1;
      }
    }

    method UpdateQualityForDataObjectsNotReceivedInGIResponse(qd: QualityDescriptor)
      modifies this`ingested
      ensures ingested == old(ingested) +
              QualityUpdates(listOfStationGroupDatapoints, |listOfStationGroupDatapoints|, qd)
    {
      SendQualityUpdates(listOfStationGroupDatapoints, qd);
    }

    method UpdateQualityForAllDataObjects(qd: QualityDescriptor)
      modifies this`ingested
      ensures ingested == old(ingested) +
              QualityUpdates(MonitoredPoints(config.definitions), |MonitoredPoints(config.definitions)|, qd)
    {
      SendQualityUpdates(MonitoredPoints(config.definitions), qd);
    }

    method UpdateConnectionStatus(newState: Supervisor.ConnectionStatus)
      modifies this`connStatus, this`changes, this`ingested
      ensures connStatus == newState
      ensures changes == if old(connStatus) == newState then old(changes) else old(changes) + [newState]
      ensures ingested == old(ingested) +
              if old(connStatus) == newState || signal == "" then [] else [ConnectionEvent(signal, newState)]
    {
      if connStatus == newState { return; }
      connStatus := newState;
      changes := changes + [newState];
      SendSouthMonitoringEvent(ConnectionEvent(signal, newState));
    }

    // ---- commands and interrogations from the north side ----

    /** The entry of a command that was just sent. */
    ghost predicate IsQueuedFor(c: OutstandingCommand, typeId: int, ca: int, ioa: int, link: nat, now: Time)
      reads c
    {
      && c.typeId == typeId && c.ca == ca && c.ioa == ioa && c.con == Some(link)
      && c.timeout == now && !c.actConReceived
    }

    /** send*Command: check the address with the untimed type, queue the command, send it on
        the active connection, and withdraw it if that fails. */
    method SendCommand(limit: int, untimed: int, ca: int, ioa: int, withTime: bool, accepted: bool, now: Time)
      returns (success: bool)
      requires outstanding.Valid() && C_SC_NA_1 <= untimed <= C_SE_NC_1
      modifies config`definitions, outstanding
      ensures outstanding.Valid()
      ensures SameView(config.definitions, old(config.definitions))
      ensures success <==>
              && Check(old(config.definitions), untimed, ca, ioa).Some?
              && (limit <= 0 || |old(outstanding.commands)| < limit)
              && activeConnection != null && activeConnection.InSession() && accepted
      ensures success ==>
                && |outstanding.commands| == |old(outstanding.commands)| + 1
                && outstanding.commands[..|old(outstanding.commands)|] == old(outstanding.commands)
                && IsQueuedFor(outstanding.commands[|old(outstanding.commands)|],
                               if withTime then untimed + 13 else untimed, ca, ioa, activeConnection.index, now)
      ensures !success ==> outstanding.commands == old(outstanding.commands)
      ensures outstanding.Contents() == Commands.Submit(
                old(outstanding.Contents()), limit, Check(old(config.definitions), untimed, ca, ioa).Some?,
                if withTime then untimed + 13 else untimed, ca, ioa,
                if activeConnection == null then None else Some(activeConnection.index),
                success, now)
    {
      success := false;
      var tag := config.CheckExchangeDataLayer(untimed, ca, ioa);
      if tag == None { return; }
      hide Commands.Accept, Commands.Depart, Check, SameView, Touch;
      success := QueueAndSend(limit, untimed, ca, ioa, withTime, accepted, now);
    }

    method QueueAndSend(limit: int, untimed: int, ca: int, ioa: int, withTime: bool, accepted: bool, now: Time)
      returns (success: bool)
      requires outstanding.Valid()
      modifies outstanding
      ensures outstanding.Valid()
      ensures success <==>
              && (limit <= 0 || |old(outstanding.commands)| < limit)
              && activeConnection != null && activeConnection.InSession() && accepted
      ensures success ==>
                && |outstanding.commands| == |old(outstanding.commands)| + 1
                && outstanding.commands[..|old(outstanding.commands)|] == old(outstanding.commands)
                && IsQueuedFor(outstanding.commands[|old(outstanding.commands)|],
                               if withTime then untimed + 13 else untimed, ca, ioa, activeConnection.index, now)
      ensures !success ==> outstanding.commands == old(outstanding.commands)
      ensures outstanding.Contents() == Commands.Submit(
                old(outstanding.Contents()), limit, true, if withTime then untimed + 13 else untimed, ca, ioa,
                if activeConnection == null then None else Some(activeConnection.index), success, now)
    {
      hide Commands.Depart;
      success := false;
      var con := if activeConnection == null then None else Some(activeConnection.index);
      ghost var queue := outstanding.commands;
      var command := outstanding.AddOutstandingCommandAndCheckLimit(
        limit, ca, ioa, withTime, untimed + 13, untimed, con, now);
      if command == null { return; }
      if activeConnection != null {
        success := activeConnection.SendProcessCommand(accepted);
      }
      if !success {
        outstanding.Withdraw(command, queue, now);
      }
    }

    method ScheduleGI() returns (scheduled: bool)
      modifies Active()`giRequested, Active()`history
      ensures scheduled <==> activeConnection != null
      ensures activeConnection != null ==> activeConnection.giRequested
      ensures ActiveFlag() == Raise(true, old(ActiveFlag()))
    {
      if activeConnection != null {
        activeConnection.SetGiRequested(true);
        return true;
      }
      scheduled := false;
    }

    // ---- received ASDUs ----

    ghost function Active(): set<Connection>
      reads this`activeConnection
    {
      if activeConnection == null then {} else {activeConnection}
    }

    ghost function ActiveFlag(): Option<(bool, History)>
      reads this`activeConnection, Active()`giRequested, Active()`history
    {
      if activeConnection == null then None else Some(activeConnection.FlagPart())
    }

    /** The state the element loop works on. */
    ghost function Tallied(handled: bool, points: seq<Datapoint>): Tally
      reads this`listOfStationGroupDatapoints, outstanding, outstanding.commands,
            this`activeConnection, Active()`giRequested, Active()`history
    {
      Tally(handled, points, listOfStationGroupDatapoints, outstanding.Contents(), ActiveFlag())
    }

    lemma TalliedMeans(handled: bool, points: seq<Datapoint>)
      ensures Tallied(handled, points).handled == handled && Tallied(handled, points).points == points
    {
    }

    /** Every occurrence of the point leaves, the others keep their order. */
    method RemoveFromListOfDatapoints(toRemove: Definition)
      modifies this`listOfStationGroupDatapoints
      ensures listOfStationGroupDatapoints == Minus(old(listOfStationGroupDatapoints), {toRemove})
    {
      var list := listOfStationGroupDatapoints;
      var kept := [];
      assert Minus(list[..0], {toRemove}) == [];
      hide Minus;
      var i := 0;
      while i < |list|
        invariant 0 <= i <= |list|
        invariant kept == Minus(list[..i], {toRemove})
      {
        MinusStep(list, i, {toRemove});
        if list[i] != toRemove { kept := kept + [list[i]]; }
        i := i + 1;
      }
      assert list[..i] == list;
      listOfStationGroupDatapoints := kept;
    }

    /** The station-group branch of handleASDU, with its second lookup. */
    method TakeAnswer(a: Asdu, o: InfoObject, tag: Option<string>)
      requires o.Object? && tag == Check(config.definitions, a.typeId, a.ca, o.ioa)
      modifies this`listOfStationGroupDatapoints, config`definitions
      ensures SameView(config.definitions, old(config.definitions))
      ensures listOfStationGroupDatapoints ==
              WithoutAll(old(listOfStationGroupDatapoints), Answer(old(config.definitions), a, o))
    {
      if tag.Some? && IsInterrogationResponse(a) {
        config.definitions := Touch(config.definitions, a.ca, o.ioa);
        var exgDef := Lookup(config.definitions, a.ca, o.ioa);
        if exgDef.Some? {
          if InStationGroup(exgDef.value) {
            RemoveFromListOfDatapoints(exgDef.value);
          }
        }
      }
    }

    /** The switch of handleASDU: the data point of a forwarded type, and what it does to the
        outstanding command found for it. */
    method Dispatch(a: Asdu, o: InfoObject, tag: Option<string>, command: OutstandingCommand?, ghost at: nat, now: Time)
      returns (supported: bool, point: Option<Datapoint>)
      requires o.Object? && outstanding.Valid()
      requires command != null ==> at < |outstanding.commands| && outstanding.commands[at] == command
      modifies outstanding, outstanding.Entries()
      ensures outstanding.Valid() && outstanding.Entries() <= old(outstanding.Entries())
      ensures supported <==> IsForwarded(a.typeId)
      ensures point == if tag.Some? && supported then Some(PointOf(a, o, tag.value)) else None
      ensures outstanding.Contents() ==
              if tag == None || !IsForwardedCommand(a.typeId) || command == null then old(outstanding.Contents())
              else if Commands.IsSetpoint(a.typeId)
              then Commands.SetpointReply(old(outstanding.Contents()), at, a.cot, now)
              else Commands.ProcessReply(old(outstanding.Contents()), at, a.cot, now)
    {
      supported, point := true, None;
      if a.typeId in {M_ME_NB_1, M_SP_NA_1, M_SP_TB_1, M_DP_NA_1, M_DP_TB_1, M_ST_NA_1, M_ST_TB_1,
                      M_ME_NA_1, M_ME_TD_1, M_ME_TE_1, M_ME_NC_1, M_ME_TF_1} {
        if tag.Some? { point := Some(PointOf(a, o, tag.value)); }
      } else if a.typeId in {C_SC_NA_1, C_SC_TA_1, C_DC_TA_1, C_DC_NA_1, C_RC_NA_1, C_RC_TA_1} {
        if tag.Some? {
          outstanding.HandleProcessCommand(command, at, a.cot, now);
          point := Some(PointOf(a, o, tag.value));
        }
      } else if a.typeId in {C_SE_NA_1, C_SE_TA_1, C_SE_NB_1, C_SE_TB_1, C_SE_NC_1, C_SE_TC_1} {
        if tag.Some? {
          outstanding.HandleSetpoint(command, at, a.cot, now);
          point := Some(PointOf(a, o, tag.value));
        }
      } else {
        supported := false;
      }
    }

    method CheckForSupportedCommand(a: Asdu, ioa: int, con: nat) returns (command: OutstandingCommand?, ghost at: nat)
      ensures command != null ==> at < |outstanding.commands| && outstanding.commands[at] == command
      ensures IsForwardedCommand(a.typeId) ==>
                Commands.FindFirst(outstanding.Contents().commands, a.typeId, a.ca, ioa, con)
                == if command == null then None else Some(at)
    {
      command, at := null, 0;
      if IsSupportedCommand(a.typeId) {
        command, at := outstanding.CheckForOutstandingCommand(a.typeId, a.ca, ioa, con);
      }
    }

    /** The command lookup and the switch. */
    method FindAndDispatch(con: nat, a: Asdu, o: InfoObject, tag: Option<string>, now: Time)
      returns (supported: bool, point: Option<Datapoint>)
      requires o.Object? && outstanding.Valid()
      modifies outstanding, outstanding.Entries()
      ensures outstanding.Valid() && outstanding.Entries() <= old(outstanding.Entries())
      ensures supported <==> IsForwarded(a.typeId)
      ensures point == if tag.Some? && supported then Some(PointOf(a, o, tag.value)) else None
      ensures outstanding.Contents() ==
              if tag.Some? && IsForwardedCommand(a.typeId)
              then Commands.Reply(old(outstanding.Contents()), a.typeId, a.ca, o.ioa, con, a.cot, now)
              else old(outstanding.Contents())
    {
      var command, at := CheckForSupportedCommand(a, o.ioa, con);
      supported, point := Dispatch(a, o, tag, command, at, now);
    }

    /** One round of the element loop, up to the data point. */
    method HandleObject(con: nat, a: Asdu, o: InfoObject, now: Time)
      returns (supported: bool, tag: Option<string>, point: Option<Datapoint>)
      requires o.Object? && outstanding.Valid()
      modifies this`listOfStationGroupDatapoints, config`definitions, outstanding, outstanding.Entries()
      ensures outstanding.Valid() && outstanding.Entries() <= old(outstanding.Entries())
      ensures SameView(config.definitions, old(config.definitions))
      ensures supported <==> IsForwarded(a.typeId)
      ensures tag == Check(old(config.definitions), a.typeId, a.ca, o.ioa)
      ensures point == if tag.Some? && supported then Some(PointOf(a, o, tag.value)) else None
      ensures listOfStationGroupDatapoints ==
              WithoutAll(old(listOfStationGroupDatapoints), Answer(old(config.definitions), a, o))
      ensures outstanding.Contents() == ReplyFor(old(config.definitions), a, o, old(outstanding.Contents()), con, now)
    {
      hide Commands.Reply, Answer, WithoutAll, Touch, Check, IsForwarded, IsForwardedCommand;
      ghost var before := config.definitions;
      tag := config.CheckExchangeDataLayer(a.typeId, a.ca, o.ioa);
      AnswerSeesOnlyTheView(before, config.definitions, a, o);
      TakeAnswer(a, o, tag);
      supported, point := FindAndDispatch(con, a, o, tag, now);
    }

    /** isAsduTriggerGi. */
    method IsAsduTriggerGi(a: Asdu, point: Datapoint) returns (trigger: bool)
      ensures trigger <==>
              TriggersGi(config.triggers, a, point) && activeConnection != null && !activeConnection.giRequested
    {
      trigger := false;
      if (a.ca, point.ioa) in config.triggers && !IsInterrogationResponse(a) {
        if HasTriggerValue(a.typeId, point.value) {
          if activeConnection == null { return false; }
          if !activeConnection.giRequested { return true; }
        }
      }
    }

    method RequestGiOnTrigger(a: Asdu, point: Datapoint)
      modifies Active()`giRequested, Active()`history
      ensures ActiveFlag() == Raise(TriggersGi(config.triggers, a, point), old(ActiveFlag()))
    {
      var trigger := IsAsduTriggerGi(a, point);
      if trigger { activeConnection.SetGiRequested(true); }
    }

    /** The bookkeeping that follows the switch. */
    method Collect(a: Asdu, supported: bool, tag: Option<string>, point: Option<Datapoint>,
                   handled: bool, points: seq<Datapoint>, tags: seq<string>)
      returns (handledAsdu: bool, datapoints: seq<Datapoint>, labels: seq<string>)
      requires Labelled(tags, points) && (handled || !supported)
      requires point.Some? <==> tag.Some? && supported
      requires point.Some? ==> point.value.tag == tag.value
      modifies Active()`giRequested, Active()`history
      ensures handledAsdu == (handled && supported)
      ensures datapoints == points + (if point.Some? then [point.value] else []) && Labelled(labels, datapoints)
      ensures ActiveFlag() == Raise(point.Some? && TriggersGi(config.triggers, a, point.value), old(ActiveFlag()))
    {
      handledAsdu, datapoints, labels := handled, points, tags;
      if !supported { handledAsdu := false; }
      if point.Some? { datapoints := datapoints + [point.value]; }
      if tag.Some? {
        if handledAsdu {
          labels := labels + [tag.value];
          RequestGiOnTrigger(a, datapoints[|datapoints| - 1]);
        }
      }
    }

    /** One round of the element loop. */
    method HandleElement(con: nat, a: Asdu, o: InfoObject, now: Time,
                         handled: bool, points: seq<Datapoint>, tags: seq<string>)
      returns (handledAsdu: bool, datapoints: seq<Datapoint>, labels: seq<string>)
      requires outstanding.Valid() && Labelled(tags, points)
      requires handled || !IsForwarded(a.typeId)
      modifies this`listOfStationGroupDatapoints, config`definitions, outstanding, outstanding.Entries(),
               Active()`giRequested, Active()`history
      ensures outstanding.Valid() && outstanding.Entries() <= old(outstanding.Entries())
      ensures SameView(config.definitions, old(config.definitions))
      ensures Labelled(labels, datapoints) && (handledAsdu || !IsForwarded(a.typeId))
      ensures Tallied(handledAsdu, datapoints)
              == Element(old(config.definitions), config.triggers, a, o, con, now, old(Tallied(handled, points)))
    {
      LabelledAndSame(config.definitions);
      ElementMeans(config.definitions, config.triggers, a, o, con, now, Tallied(handled, points));
      hide Element, WithoutAll, Answer, ReplyFor, Check, SameView, Raise, IsForwarded, IsForwardedCommand, Labelled,
           TriggersGi;
      handledAsdu, datapoints, labels := handled, points, tags;
      if o.Object? {
        var supported, tag, point := HandleObject(con, a, o, now);
        assert ActiveFlag() == old(ActiveFlag());
        ghost var table, view := outstanding.Contents(), config.definitions;
        handledAsdu, datapoints, labels := Collect(a, supported, tag, point, handled, points, tags);
        assert outstanding.Contents() == table && config.definitions == view;
      }
    }

    /** The element loop of handleASDU. */
    method HandleElements(con: nat, a: Asdu, now: Time)
      returns (handledAsdu: bool, datapoints: seq<Datapoint>, labels: seq<string>)
      requires outstanding.Valid()
      modifies this`listOfStationGroupDatapoints, config`definitions, outstanding, outstanding.Entries(),
               Active()`giRequested, Active()`history
      ensures outstanding.Valid()
      ensures SameView(config.definitions, old(config.definitions))
      ensures Labelled(labels, datapoints)
      ensures Tallied(handledAsdu, datapoints)
              == Outcome(old(config.definitions), config.triggers, a, con, now, old(Tallied(true, [])))
    {
      TalliedMeans(true, []);
      hide Tallied, Labelled, Element, Outcome, SameView;
      ghost var defs := config.definitions;
      handledAsdu, datapoints, labels := true, [], [];
      LabelledAndSame(defs);
      ElementsAddUp(defs, config.triggers, a, con, now, Tallied(true, []));
      var i := 0;
      while i < |a.objects|
        invariant 0 <= i <= |a.objects|
        invariant outstanding.Valid() && outstanding.Entries() <= old(outstanding.Entries())
        invariant SameView(config.definitions, defs)
        invariant handledAsdu || !IsForwarded(a.typeId)
        invariant Labelled(labels, datapoints)
        invariant Tallied(handledAsdu, datapoints)
                  == Elements(defs, config.triggers, a, i, con, now, old(Tallied(true, [])))
      {
        ghost var before, tally := config.definitions, Tallied(handledAsdu, datapoints);
        ElementSeesOnlyTheView(defs, before, config.triggers, a, a.objects[i], con, now, tally);
        handledAsdu, datapoints, labels := HandleElement(con, a, a.objects[i], now, handledAsdu, datapoints, labels);
        SameViewIsTransitive(config.definitions, before, defs);
        i := i + 1;
      }
    }

    method SendData(datapoints: seq<Datapoint>, labels: seq<string>)
      requires Labelled(labels, datapoints)
      modifies this`ingested
      ensures ingested == old(ingested) + Published(datapoints, |datapoints|)
    {
      var i := 0;
      while i < |datapoints|
        invariant 0 <= i <= |datapoints|
        invariant ingested == old(ingested) + Published(datapoints, i)
      {
        ingested := ingested + [Value(labels[i], datapoints[i])];
        i := i + 1;
      }
    }

    /** The element loop and the publication of its data points. */
    method HandleAndPublish(con: nat, a: Asdu, now: Time) returns (handledAsdu: bool, ghost datapoints: seq<Datapoint>)
      requires outstanding.Valid()
      modifies this`listOfStationGroupDatapoints, this`ingested, config`definitions,
               outstanding, outstanding.Entries(), Active()`giRequested, Active()`history
      ensures outstanding.Valid()
      ensures SameView(config.definitions, old(config.definitions))
      ensures ingested == old(ingested) + Published(datapoints, |datapoints|)
      ensures Tallied(handledAsdu, datapoints)
              == Outcome(old(config.definitions), config.triggers, a, con, now, old(Tallied(true, [])))
    {
      hide Outcome, SameView, Tallied;
      var points, labels;
      handledAsdu, points, labels := HandleElements(con, a, now);
      if |labels| != 0 { SendData(points, labels); }
      datapoints := points;
    }

    /** What the client makes of an ASDU, apart from the connection that received it: null
        entries at most in the definition map, the delivered objects published, and the
        commands of this connection replied to. */
    twostate predicate Processed(con: nat, a: Asdu, now: int, handledAsdu: bool)
      reads this`ingested, config`definitions, outstanding, outstanding.commands
    {
      && outstanding.Valid()
      && SameView(config.definitions, old(config.definitions))
      && handledAsdu == IsHandled(a, |a.objects|)
      && ingested == old(ingested) + PublishedFor(old(config.definitions), a)
      && outstanding.Contents() ==
           Replies(old(config.definitions), a, |a.objects|, old(outstanding.Contents()), con, now)
    }

    /** What they amount to: the objects delivered, the points answered, the commands replied
        to, and the flag raised on the active connection. */
    method HandleAll(con: nat, a: Asdu, now: Time) returns (handledAsdu: bool)
      requires outstanding.Valid()
      modifies this`listOfStationGroupDatapoints, this`ingested, config`definitions,
               outstanding, outstanding.Entries(), Active()`giRequested, Active()`history
      ensures Processed(con, a, now, handledAsdu)
      ensures listOfStationGroupDatapoints ==
              WithoutAll(old(listOfStationGroupDatapoints), Answered(old(config.definitions), a, |a.objects|))
      ensures ActiveFlag() ==
              Raise(Triggers(old(config.definitions), config.triggers, a, |a.objects|), old(ActiveFlag()))
    {
      hide IsHandled, Deliveries, WithoutAll, Answered, Replies, Triggers, SameView, Raise, Published;
      ghost var datapoints;
      handledAsdu, datapoints := HandleAndPublish(con, a, now);
    }

    /** The element loop, as the connection that received the ASDU sees it. */
    method HandleAllFor(connection: Connection, a: Asdu, now: Time) returns (handledAsdu: bool)
      requires connection.client == this && outstanding.Valid()
      modifies this`listOfStationGroupDatapoints, this`ingested, config`definitions,
               outstanding, outstanding.Entries(), Active()`giRequested, Active()`history
      ensures Processed(connection.index, a, now, handledAsdu)
      ensures connection.Snapshot() ==
              AfterElements(old(config.definitions), config.triggers, old(connection.Snapshot()), a,
                            activeConnection == connection)
    {
      hide Processed, WithoutAll, Answered, Triggers, IsInterrogationResponse;
      ghost var s := connection.Snapshot();
      handledAsdu := HandleAll(connection.index, a, now);
      assert connection.LinkPart() == s.link && connection.SyncPart() == s.sync;
      assert connection.GiPart() == s.gi.(requested := connection.giRequested);
    }

    /** handleASDU. */
    method HandleASDU(connection: Connection, a: Asdu, now: Time) returns (handledAsdu: bool)
      requires connection.client == this && outstanding.Valid()
      modifies this`giStatus, this`listOfStationGroupDatapoints, this`ingested, config`definitions,
               outstanding, outstanding.Entries(), Active()`giRequested, Active()`history, connection`history
      ensures outstanding.Valid()
      ensures SameView(config.definitions, old(config.definitions))
      ensures handledAsdu == IsHandled(a, |a.objects|)
      ensures ingested == old(ingested) + ProgressEvents(signal, old(giStatus), a)
                          + PublishedFor(old(config.definitions), a)
      ensures outstanding.Contents() ==
              Replies(old(config.definitions), a, |a.objects|, old(outstanding.Contents()), connection.index, now)
      ensures connection.Snapshot() ==
              AfterElements(old(config.definitions), config.triggers, AfterProgress(old(connection.Snapshot()), a), a,
                            activeConnection == connection)
    {
      hide Replies, PublishedFor, SameView, AfterElements, AfterProgress, IsHandled;
      connection.ReportProgress(a);
      handledAsdu := HandleAllFor(connection, a, now);
    }
  }

  /** The settings describe the configuration object, up to null entries left by lookups. */
  ghost predicate Describes(cfg: Session.Config, config: ExchangeConfig.Config)
    reads config
  {
    && cfg.cas == config.listOfCAs
    && cfg.triggers == config.triggers
    && SameView(config.definitions, cfg.defs)
    && WellKeyed(cfg.defs)
    && cfg.station == StationGroup(cfg.defs)
  }

  lemma AnsweringTouchesClock(cfg: Session.Config, s: State, a: Asdu, now: Time)
    ensures var t := ClockAnswered(cfg, s, a, now); t == s.(sync := t.sync, history := t.history)
  {
  }

  lemma StartDtKeepsValid(cfg: Session.Config, l: Link.Link, gi: Gi)
    requires l.handle == Link.Open(true)
    ensures Link.Inv(l) ==> Link.Inv(Link.StartDtConfirmed(l))
    ensures CycleProofs.IteratorInRange(cfg, gi) ==> CycleProofs.IteratorInRange(cfg, gi.(firstSent := false))
  {
  }

  class Connection {
    const client: Client
    const cfg: Session.Config
    const index: nat
    const autostart: bool

    var connected: bool
    var connecting: bool
    var connect: bool
    var disconnect: bool
    var connection: Link.Handle
    var connectionState: Link.ConState
    var startDtSent: bool
    var delayExpirationTime: int

    var timeSynchronized: bool
    var timeSyncCommandSent: bool
    var firstTimeSyncOperationCompleted: bool
    var nextTimeSync: int

    var firstGISent: bool
    var interrogationInProgress: bool
    var interrogationRequestState: RequestState
    var interrogationRequestSent: int
    var nextGIStartTime: int
    var endOfInitReceived: bool
    var listOfCA_it: nat
    var giRequested: bool

    ghost var created: nat
    ghost var destroyed: nat
    ghost var history: History

    constructor (client: Client, cfg: Session.Config, index: nat, autostart: bool, conn: bool)
      requires Describes(cfg, client.config)
      ensures Valid()
      ensures this.client == client && this.cfg == cfg && this.index == index && this.autostart == autostart
      ensures LinkPart() == Link.Initial(conn)
      ensures Snapshot() == Initial(conn, 0).(status := client.giStatus, pending := client.listOfStationGroupDatapoints)
    {
      this.client, this.cfg, this.index, this.autostart := client, cfg, index, autostart;
      connected, connecting, connect, disconnect := false, false, conn, false;
      connection, connectionState, startDtSent, delayExpirationTime := Link.NoHandle, Link.Idle, false, 0;
      timeSynchronized, timeSyncCommandSent, firstTimeSyncOperationCompleted, nextTimeSync := false, false, false, 0;
      firstGISent, interrogationInProgress, interrogationRequestState := false, false, 0;
      interrogationRequestSent, nextGIStartTime, endOfInitReceived, listOfCA_it, giRequested := 0, 0, false, 0, false;
      created, destroyed, history := 0, 0, Nothing;
    }

    ghost function LinkPart(): Link.Link
      reads this`connectionState, this`connected, this`connecting, this`connect, this`disconnect, this`startDtSent,
            this`connection, this`delayExpirationTime, this`created, this`destroyed
    {
      Link.Link(connectionState, connected, connecting, connect, disconnect, startDtSent,
                connection, delayExpirationTime, created, destroyed)
    }

    ghost function SyncPart(): Sync
      reads this`timeSynchronized, this`timeSyncCommandSent, this`firstTimeSyncOperationCompleted, this`nextTimeSync
    {
      Sync(timeSynchronized, timeSyncCommandSent, firstTimeSyncOperationCompleted, nextTimeSync)
    }

    ghost function GiPart(): Gi
      reads this`firstGISent, this`interrogationInProgress, this`interrogationRequestState,
            this`interrogationRequestSent, this`nextGIStartTime, this`endOfInitReceived, this`listOfCA_it,
            this`giRequested
    {
      Gi(firstGISent, interrogationInProgress, interrogationRequestState, interrogationRequestSent,
         nextGIStartTime, endOfInitReceived, listOfCA_it, giRequested)
    }

    /** The session state these fields stand for; the clock is the caller's. */
    ghost function Snapshot(): State
      reads this, client`giStatus, client`listOfStationGroupDatapoints
    {
      State(LinkPart(), SyncPart(), GiPart(), client.giStatus, client.listOfStationGroupDatapoints, 0, history)
    }

    ghost function FlagPart(): (bool, History)
      reads this`giRequested, this`history
    {
      (giRequested, history)
    }

    ghost predicate Configured()
      reads client.config
    {
      Describes(cfg, client.config)
    }

    /** Kept by every entry point: connection thread, callbacks, supervisor and callers. */
    ghost predicate Valid()
      reads this, client.config
    {
      Configured() && Link.Inv(LinkPart()) && CycleProofs.IteratorInRange(cfg, GiPart())
    }

    /** In the active state there is a handle to send on. */
    ghost predicate InSession()
      reads this`connection, this`connectionState
    {
      connection != Link.NoHandle && connectionState == Link.Active
    }

    // ---- flags ----

    method Disonnect()
      modifies this`disconnect, this`connect
      ensures old(Valid()) ==> Valid()
      ensures disconnect && !connect
      ensures LinkPart() == Link.Disconnect(old(LinkPart()))
    {
      hide Describes, CycleProofs.IteratorInRange;
      disconnect := true;
      connect := false;
    }

    method Connect()
      modifies this`disconnect, this`connect
      ensures old(Valid()) ==> Valid()
      ensures connect && !disconnect
      ensures LinkPart() == Link.Connect(old(LinkPart()))
    {
      hide Describes, CycleProofs.IteratorInRange;
      disconnect := false;
      connect := true;
    }

    method Activate()
      modifies this`connection, this`startDtSent, this`connectionState
      ensures old(Valid()) ==> Valid()
      ensures LinkPart() == Link.Activate(old(LinkPart()))
    {
      hide Describes, CycleProofs.IteratorInRange;
      if connectionState == Link.Inactive {
        if connection != Link.NoHandle {
          connection := Link.Open(true);
        }
        startDtSent := true;
        connectionState := Link.Active;
      }
    }

    method SetGiRequested(value: bool)
      modifies this`giRequested, this`history
      ensures giRequested == value
      ensures FlagPart() == if value then Raise(true, Some(old(FlagPart()))).value else (false, old(history))
      ensures Snapshot() == if value then RaiseFlag(old(Snapshot())) else LowerFlag(old(Snapshot()))
    {
      if value && !giRequested { history := Then(history, Raised); }
      giRequested := value;
    }

    // ---- connection handler ----

    /** The CLOSED branch of the handler. */
    method OnClosed()
      modifies this`connectionState, this`connected, this`connecting
      ensures LinkPart() == Link.Lost(old(LinkPart()))
    {
      connectionState := Link.Closed;
      connected := false;
      connecting := false;
    }

    /** The library reports that the current handle was closed. */
    method OnPeerClosed()
      requires connection.Dialing? || connection.Open?
      modifies this`connectionState, this`connected, this`connecting, this`connection
      ensures old(Valid()) ==> Valid()
      ensures LinkPart() == Link.PeerClosed(old(LinkPart()))
    {
      hide Describes, CycleProofs.IteratorInRange;
      connection := Link.Dead;
      OnClosed();
    }

    /** The OPENED branch of the handler. */
    method OnConnected()
      requires connection.Dialing?
      modifies this`connectionState, this`connected, this`connecting, this`connection
      ensures old(Valid()) ==> Valid()
      ensures LinkPart() == Link.Opened(old(LinkPart()))
    {
      hide Describes, CycleProofs.IteratorInRange;
      connection := Link.Open(false);
      connectionState := Link.Inactive;
      connected := true;
      connecting := false;
    }

    method OnOpened()
      requires connection.Dialing?
      modifies this`connectionState, this`connected, this`connecting, this`connection, this`history
      ensures old(Valid()) ==> Valid()
      ensures Snapshot() == SessionOpened(old(Snapshot()))
    {
      hide Describes, CycleProofs.IteratorInRange, Link.Inv;
      OnConnected();
      history := Then(history, LinkOpened);
    }

    method ForgetClockSync(now: Time)
      modifies this`nextTimeSync, this`timeSynchronized, this`firstTimeSyncOperationCompleted
      ensures SyncPart() == old(SyncPart()).(next := now, synchronized := false, firstDone := false)
    {
      nextTimeSync := now;
      timeSynchronized := false;
      firstTimeSyncOperationCompleted := false;
    }

    method ResetSession(now: Time)
      modifies this`nextTimeSync, this`timeSynchronized, this`firstTimeSyncOperationCompleted, this`firstGISent,
               this`connectionState, this`history
      ensures Snapshot() == SessionStarted(old(Snapshot()), now)
    {
      ForgetClockSync(now);
      firstGISent := false;
      connectionState := Link.Active;
      history := Then(history, StartDt);
    }

    method OnStartDtCon(now: Time)
      requires connection == Link.Open(true)
      modifies this`nextTimeSync, this`timeSynchronized, this`firstTimeSyncOperationCompleted, this`firstGISent,
               this`connectionState, this`history
      ensures old(Valid()) ==> Valid()
      ensures Snapshot() == SessionStarted(old(Snapshot()), now)
    {
      hide Describes, CycleProofs.IteratorInRange, Link.Inv;
      StartDtKeepsValid(cfg, LinkPart(), GiPart());
      ResetSession(now);
    }

    // ---- sending and publishing ----

    /** Record an entry that publishes nothing. */
    ghost method Note(e: Entry)
      requires !e.StatusIs? && !e.Invalidated?
      modifies this`history
      ensures history == Then(old(history), e)
      ensures Adds(client.signal, old(history), history, client.ingested, client.ingested)
    {
      AddsSilently(client.signal, history, e, client.ingested);
      history := Then(history, e);
    }

    /** `accepted` is the library's answer. */
    method SendInterrogationCommand(ca: int, accepted: bool) returns (success: bool)
      ensures success <==> connection != Link.NoHandle && connectionState == Link.Active && accepted
    {
      success := false;
      if connection != Link.NoHandle && connectionState == Link.Active {
        if accepted {
          success := true;
        }
      }
    }

    /** send*Command of the connection, as far as success is concerned. */
    method SendProcessCommand(accepted: bool) returns (success: bool)
      ensures success <==> InSession() && accepted
    {
      success := false;
      if connection != Link.NoHandle && connectionState == Link.Active {
        if accepted { success := true; }
      }
    }

    method ReportGiStatus(status: GiStatus)
      modifies this`history, client`giStatus, client`ingested
      ensures Snapshot() == UpdateStatus(old(Snapshot()), status)
      ensures Adds(client.signal, old(history), history, old(client.ingested), client.ingested)
    {
      AddsNothing(client.signal, history, client.ingested);
      AddsOne(client.signal, history, StatusIs(status), client.ingested);
      hide Adds, Emitted;
      if client.giStatus != status { history := Then(history, StatusIs(status)); }
      client.UpdateGiStatus(status);
    }

    method ReportProgress(a: Asdu)
      modifies this`history, client`giStatus, client`ingested
      ensures Snapshot() == AfterProgress(old(Snapshot()), a)
      ensures client.ingested == old(client.ingested) + ProgressEvents(client.signal, old(client.giStatus), a)
    {
      if IsInterrogationResponse(a) {
        if client.giStatus == GiStarted {
          history := Then(history, StatusIs(GiInProgress));
          client.UpdateGiStatus(GiInProgress);
        }
      }
    }

    method PublishUnanswered()
      modifies this`history, client`ingested
      ensures client.ingested == old(client.ingested) + InvalidUpdates(client.listOfStationGroupDatapoints)
      ensures Snapshot() == Invalidate(old(Snapshot()))
      ensures Adds(client.signal, old(history), history, old(client.ingested), client.ingested)
    {
      ghost var points := client.listOfStationGroupDatapoints;
      AddsNothing(client.signal, history, client.ingested);
      AddsOne(client.signal, history, Invalidated(points), client.ingested);
      hide Adds, Emitted;
      if client.listOfStationGroupDatapoints != [] {
        history := Then(history, Invalidated(points));
      }
      client.UpdateQualityForDataObjectsNotReceivedInGIResponse(Invalid);
    }

    /** The library closes an open handle and reports CLOSED before it returns. */
    method CloseConnection()
      modifies this`connectionState, this`connected, this`connecting, this`connection
      ensures Snapshot() == Close(old(Snapshot()))
    {
      if connection != Link.NoHandle {
        if connection.Open? { OnPeerClosed(); }
      }
    }

    method FailInterrogation()
      modifies this`history, client`giStatus, client`ingested
      ensures Snapshot() == Fail(old(Snapshot()))
      ensures Adds(client.signal, old(history), history, old(client.ingested), client.ingested)
    {
      hide Adds;
      ReportGiStatus(GiFailed);
      ghost var h, i := history, client.ingested;
      PublishUnanswered();
      AddsCompose(client.signal, old(history), h, history, old(client.ingested), i, client.ingested);
    }

    // ---- periodic work ----

    method SynchronizeClock(now: Time, accepted: bool)
      requires InSession()
      modifies this`nextTimeSync, this`timeSyncCommandSent, this`history
      ensures Snapshot() == SyncTick(cfg, old(Snapshot()), now, accepted)
      ensures Adds(client.signal, old(history), history, old(client.ingested), client.ingested)
    {
      AddsNothing(client.signal, history, client.ingested);
      hide Adds;
      if cfg.timeSyncPeriod > 0 {
        var sendTimeSyncCommand := false;
        if !timeSynchronized && !firstTimeSyncOperationCompleted && !timeSyncCommandSent {
          sendTimeSyncCommand := true;
        }
        ghost var periodic := false;
        if timeSynchronized && !timeSyncCommandSent {
          var currentTime := now;
          if currentTime >= nextTimeSync {
            sendTimeSyncCommand := true;
            periodic := true;
            nextTimeSync := After(currentTime, cfg.timeSyncPeriod);
          }
        }
        if sendTimeSyncCommand {
          var ca := cfg.timeSyncCa;
          if ca == -1 { ca := cfg.defaultCa; }
          if ca == -1 { ca := BroadcastCa(cfg); }
          if accepted {
            timeSyncCommandSent := true;
            Note(ClockSent(ca, now, periodic));
          }
        }
      }
    }

    method OpenBroadcastRequest(now: Time)
      modifies this`firstGISent, this`interrogationInProgress, this`interrogationRequestState,
               this`interrogationRequestSent, this`nextGIStartTime
      ensures GiPart() == old(GiPart()).(firstSent := true, inProgress := true, req := 1, reqSent := now,
                                         nextStart := After(now, cfg.giCycle))
    {
      firstGISent := true;
      interrogationInProgress := true;
      interrogationRequestState := 1;
      interrogationRequestSent := now;
      nextGIStartTime := After(interrogationRequestSent, cfg.giCycle);
    }

    method InterrogateBroadcast(now: Time, accepted: bool)
      requires InSession()
      modifies this`firstGISent, this`interrogationInProgress, this`interrogationRequestState,
               this`interrogationRequestSent, this`nextGIStartTime, this`history, client`giStatus, client`ingested
      ensures Snapshot() == StartBroadcast(cfg, old(Snapshot()), now, accepted)
      ensures Adds(client.signal, old(history), history, old(client.ingested), client.ingested)
    {
      hide UpdateStatus, Adds;
      ReportGiStatus(GiStarted);
      ghost var h, i := history, client.ingested;
      var broadcastAddr := BroadcastCa(cfg);
      var success := SendInterrogationCommand(broadcastAddr, accepted);
      NoteBroadcast(broadcastAddr, success, now);
      AddsCompose(client.signal, old(history), h, history, old(client.ingested), i, client.ingested);
    }

    method NoteBroadcast(broadcastAddr: int, success: bool, now: Time)
      modifies this`firstGISent, this`interrogationInProgress, this`interrogationRequestState,
               this`interrogationRequestSent, this`nextGIStartTime, this`history
      ensures history == Then(old(history), if success then Asked(broadcastAddr, now) else NotAsked(broadcastAddr))
      ensures Adds(client.signal, old(history), history, client.ingested, client.ingested)
      ensures GiPart() ==
              if success then old(GiPart()).(firstSent := true, inProgress := true, req := 1, reqSent := now,
                                             nextStart := After(now, cfg.giCycle))
              else old(GiPart()).(firstSent := true)
    {
      hide Adds, After;
      if success {
        Note(Asked(broadcastAddr, now));
        OpenBroadcastRequest(now);
      } else {
        Note(NotAsked(broadcastAddr));
        firstGISent := true;
      }
    }

    method RewindAddresses()
      modifies this`listOfCA_it, this`firstGISent, this`interrogationInProgress
      ensures GiPart() == old(GiPart()).(it := 0, firstSent := true,
                                         inProgress := interrogationInProgress)
      ensures interrogationInProgress == (old(interrogationInProgress) || |client.config.listOfCAs| != 0)
    {
      listOfCA_it := 0;
      firstGISent := true;
      if listOfCA_it != |client.config.listOfCAs| {
        interrogationInProgress := true;
      }
    }

    method PrepareAllCa()
      requires cfg.cas == client.config.listOfCAs
      modifies this`listOfCA_it, this`firstGISent, this`interrogationInProgress, this`history,
               client`giStatus, client`ingested
      ensures Snapshot() == StartAllCa(cfg, old(Snapshot()))
      ensures Adds(client.signal, old(history), history, old(client.ingested), client.ingested)
    {
      AddsNothing(client.signal, history, client.ingested);
      hide UpdateStatus, Adds;
      RewindAddresses();
      if |client.config.listOfCAs| != 0 {
        ReportGiStatus(GiStarted);
      }
    }

    /** Forget the end of initialization and list the points to be answered. */
    method BeginCycle(ghost why: Why, now: Time)
      requires Configured()
      modifies this`endOfInitReceived, this`history, client`listOfStationGroupDatapoints
      ensures Snapshot() == CycleBegun(cfg, old(Snapshot()), why, now)
      ensures Adds(client.signal, old(history), history, old(client.ingested), client.ingested)
    {
      TraversalSeesOnlyTheView(cfg.defs, client.config.definitions, d => InStationGroup(d));
      hide StationGroup, SameView, WellKeyed, Adds;
      endOfInitReceived := false;
      client.CreateListOfDatapointsInStationGroup();
      Note(Began(why, now));
    }

    method StartNewInterrogationCycle(ghost why: Why, now: Time, accepted: bool)
      requires Configured() && InSession()
      modifies this`firstGISent, this`interrogationInProgress, this`interrogationRequestState,
               this`interrogationRequestSent, this`nextGIStartTime, this`endOfInitReceived, this`listOfCA_it,
               this`history, client`giStatus, client`listOfStationGroupDatapoints, client`ingested
      ensures Snapshot() == StartCycle(cfg, old(Snapshot()), why, now, accepted)
      ensures Adds(client.signal, old(history), history, old(client.ingested), client.ingested)
    {
      hide StartBroadcast, StartAllCa, CycleBegun, StationGroup, SameView, WellKeyed, Adds;
      BeginCycle(why, now);
      ghost var h, i := history, client.ingested;
      if !cfg.giAllCa {
        InterrogateBroadcast(now, accepted);
      } else {
        PrepareAllCa();
      }
      AddsCompose(client.signal, old(history), h, history, old(client.ingested), i, client.ingested);
    }

    method CloseRequest(now: Time)
      modifies this`interrogationRequestState, this`nextGIStartTime
      ensures GiPart() == old(GiPart()).(req := 0, nextStart := After(now, cfg.giCycle))
    {
      interrogationRequestState := 0;
      nextGIStartTime := After(now, cfg.giCycle);
    }

    method GiveUp(now: Time)
      modifies this`interrogationRequestState, this`nextGIStartTime, this`history, client`giStatus, client`ingested,
               this`connectionState, this`connected, this`connecting, this`connection
      ensures Snapshot() == TimeOut(cfg, old(Snapshot()), now)
      ensures Adds(client.signal, old(history), history, old(client.ingested), client.ingested)
    {
      hide Fail, Close, Adds;
      CloseRequest(now);
      Note(Entry.TimedOut(now));
      ghost var h, i := history, client.ingested;
      FailInterrogation();
      AddsCompose(client.signal, old(history), h, history, old(client.ingested), i, client.ingested);
      CloseConnection();
    }

    method OpenRequest(ca: int, now: Time)
      modifies this`interrogationRequestState, this`interrogationRequestSent, this`history,
               client`giStatus, client`ingested
      ensures Adds(client.signal, old(history), history, old(client.ingested), client.ingested)
      ensures var s := old(Snapshot());
              Snapshot() == UpdateStatus(Record(s.(gi := s.gi.(req := 1, reqSent := now)), Asked(ca, now)), GiStarted)
    {
      hide UpdateStatus, Adds;
      Note(Asked(ca, now));
      ghost var h, i := history, client.ingested;
      interrogationRequestState := 1;
      interrogationRequestSent := now;
      ReportGiStatus(GiStarted);
      AddsCompose(client.signal, old(history), h, history, old(client.ingested), i, client.ingested);
    }

    method RefuseRequest(ca: int)
      modifies this`history, client`giStatus, client`ingested,
               this`connectionState, this`connected, this`connecting, this`connection
      ensures Snapshot() == Close(Fail(Record(old(Snapshot()), NotAsked(ca))))
      ensures Adds(client.signal, old(history), history, old(client.ingested), client.ingested)
    {
      hide Fail, Close, Adds;
      Note(NotAsked(ca));
      ghost var h, i := history, client.ingested;
      FailInterrogation();
      AddsCompose(client.signal, old(history), h, history, old(client.ingested), i, client.ingested);
      CloseConnection();
    }

    method AskNextAddress(now: Time, accepted: bool)
      requires InSession() && cfg.cas == client.config.listOfCAs && listOfCA_it < |cfg.cas|
      modifies this`interrogationRequestState, this`interrogationRequestSent, this`listOfCA_it, this`history,
               client`giStatus, client`ingested,
               this`connectionState, this`connected, this`connecting, this`connection
      ensures Snapshot() == AskNext(cfg, old(Snapshot()), now, accepted)
      ensures Adds(client.signal, old(history), history, old(client.ingested), client.ingested)
    {
      hide UpdateStatus, Fail, Close, Adds;
      var ca := client.config.listOfCAs[listOfCA_it];
      var success := SendInterrogationCommand(ca, accepted);
      if success {
        OpenRequest(ca, now);
      } else {
        RefuseRequest(ca);
      }
      listOfCA_it := listOfCA_it + 1;
    }

    /** A cycle is in progress: wait for the peer, ask the next address, or finish. */
    method ContinueInterrogation(now: Time, accepted: bool)
      requires InSession() && cfg.cas == client.config.listOfCAs && interrogationInProgress
      requires cfg.giAllCa ==> listOfCA_it <= |cfg.cas|
      modifies this, client`giStatus, client`ingested
      ensures Snapshot() == Progress(cfg, old(Snapshot()), now, accepted)
      ensures Adds(client.signal, old(history), history, old(client.ingested), client.ingested)
      ensures QualityCalls(client.ingested) == old(QualityCalls(client.ingested))
              + (if QualityProofs.RequestFails(cfg, old(GiPart()), now, accepted)
                 then InvalidUpdates(client.listOfStationGroupDatapoints) else [])
    {
      hide QualityCalls, QualityProofs.RequestFails, Progress, Adds;
      ghost var s, i := Snapshot(), client.ingested;
      Proceed(now, accepted);
      QualityProofs.ProgressPublishes(cfg, s, now, accepted);
      QualityProofs.GainedQuality(client.signal, s.history, history,
                                  QualityProofs.RequestFails(cfg, s.gi, now, accepted), s.pending, i, client.ingested);
    }

    /** The branches of a cycle in progress. */
    method Proceed(now: Time, accepted: bool)
      requires InSession() && cfg.cas == client.config.listOfCAs && interrogationInProgress
      requires cfg.giAllCa ==> listOfCA_it <= |cfg.cas|
      modifies this, client`giStatus, client`ingested
      ensures Snapshot() == Progress(cfg, old(Snapshot()), now, accepted)
      ensures Adds(client.signal, old(history), history, old(client.ingested), client.ingested)
    {
      AddsNothing(client.signal, history, client.ingested);
      hide Adds;
      if interrogationRequestState != 0 {
        var giTime := cfg.giTime;
        if interrogationRequestState == 1 {
          if giTime != 0 {
            if now > After(interrogationRequestSent, giTime) { GiveUp(now); }
          }
        } else if interrogationRequestState == 2 {
          if giTime != 0 {
            if now > After(interrogationRequestSent, giTime) { GiveUp(now); }
          }
        }
      } else {
        if cfg.giAllCa {
          if listOfCA_it != |client.config.listOfCAs| {
            AskNextAddress(now, accepted);
          } else {
            Note(Completed(now));
            interrogationInProgress := false;
            nextGIStartTime := After(now, cfg.giCycle);
          }
        } else {
          interrogationInProgress := false;
        }
      }
    }

    /** A cycle that is due, or asked for by an end of initialization. */
    method RestartWhenDue(now: Time, accepted: bool)
      requires Configured() && InSession()
      modifies this`firstGISent, this`interrogationInProgress, this`interrogationRequestState,
               this`interrogationRequestSent, this`nextGIStartTime, this`endOfInitReceived, this`listOfCA_it,
               this`history, client`giStatus, client`listOfStationGroupDatapoints,
               client`ingested
      ensures Snapshot() == RestartDue(cfg, old(Snapshot()), now, accepted)
      ensures if (cfg.giCycle > 0 && now > old(nextGIStartTime)) || old(endOfInitReceived)
              then CycleStarts.NewCycles(old(history), history) == 1 && !endOfInitReceived
                   && CycleStarts.NewRequests(old(history), history) == (if !cfg.giAllCa && accepted then 1 else 0)
              else history == old(history)
      ensures Adds(client.signal, old(history), history, old(client.ingested), client.ingested)
    {
      AddsNothing(client.signal, history, client.ingested);
      CycleStarts.DueStarts(cfg, Snapshot(), now, accepted);
      hide StartCycle, Configured, InSession, Adds, CycleStarts.NewCycles, CycleStarts.NewRequests;
      if cfg.giCycle > 0 && now > nextGIStartTime {
        StartNewInterrogationCycle(Periodic, now, accepted);
      } else if endOfInitReceived {
        StartNewInterrogationCycle(EndOfInit, now, accepted);
      }
    }

    /** A cycle on request, once the previous one has ended. */
    method RestartOnRequest(now: Time, accepted: bool)
      requires Configured() && InSession()
      modifies this`firstGISent, this`interrogationInProgress, this`interrogationRequestState,
               this`interrogationRequestSent, this`nextGIStartTime, this`endOfInitReceived, this`listOfCA_it,
               this`giRequested, this`history, client`giStatus, client`listOfStationGroupDatapoints,
               client`ingested
      ensures Snapshot() == ServeRequest(cfg, old(Snapshot()), now, accepted)
      ensures Adds(client.signal, old(history), history, old(client.ingested), client.ingested)
    {
      AddsNothing(client.signal, history, client.ingested);
      hide StartCycle, Configured, InSession, Adds, RaiseFlag, LowerFlag, Raise;
      if giRequested && (client.giStatus == GiFailed || client.giStatus == GiFinished) {
        SetGiRequested(false);
        StartNewInterrogationCycle(OnRequest, now, accepted);
      }
    }

    /** No cycle is in progress. */
    method RestartInterrogation(now: Time, accepted: bool)
      requires Configured() && InSession()
      modifies this`firstGISent, this`interrogationInProgress, this`interrogationRequestState,
               this`interrogationRequestSent, this`nextGIStartTime, this`endOfInitReceived, this`listOfCA_it,
               this`giRequested, this`history, client`giStatus, client`listOfStationGroupDatapoints,
               client`ingested
      ensures Snapshot() == ServeRequest(cfg, RestartDue(cfg, old(Snapshot()), now, accepted), now, accepted)
      ensures Adds(client.signal, old(history), history, old(client.ingested), client.ingested)
    {
      hide RestartDue, ServeRequest, Configured, InSession, Adds;
      RestartWhenDue(now, accepted);
      ghost var h, i := history, client.ingested;
      RestartOnRequest(now, accepted);
      AddsCompose(client.signal, old(history), h, history, old(client.ingested), i, client.ingested);
    }

    method ServeInterrogation(now: Time, accepted: bool)
      requires Configured() && InSession()
      requires cfg.giAllCa && interrogationInProgress ==> listOfCA_it <= |cfg.cas|
      modifies this, client`giStatus, client`listOfStationGroupDatapoints, client`ingested
      ensures Snapshot() == GiTick(cfg, old(Snapshot()), now, accepted)
      ensures Adds(client.signal, old(history), history, old(client.ingested), client.ingested)
    {
      hide StartCycle, Progress, RestartDue, ServeRequest, InSession, Adds;
      if !firstGISent {
        StartNewInterrogationCycle(First, now, accepted);
      } else {
        if interrogationInProgress {
          ContinueInterrogation(now, accepted);
        } else {
          RestartInterrogation(now, accepted);
        }
      }
    }

    method ExecutePeriodicTasks(now: Time, clockAccepted: bool, giAccepted: bool)
      requires Configured() && InSession()
      requires cfg.giAllCa && interrogationInProgress ==> listOfCA_it <= |cfg.cas|
      modifies this, client`giStatus, client`listOfStationGroupDatapoints, client`ingested
      ensures Snapshot() == Periodics(cfg, old(Snapshot()), now, clockAccepted, giAccepted)
      ensures Adds(client.signal, old(history), history, old(client.ingested), client.ingested)
    {
      hide SyncTick, GiTick, InSession, Describes, Adds;
      SynchronizeClock(now, clockAccepted);
      ghost var h, i := history, client.ingested;
      if cfg.timeSyncPeriod == 0 || firstTimeSyncOperationCompleted {
        if cfg.giEnabled {
          ServeInterrogation(now, giAccepted);
          AddsCompose(client.signal, old(history), h, history, old(client.ingested), i, client.ingested);
        }
      }
    }

    // ---- received ASDUs ----

    /** An interrogation response keeps a running request alive. */
    method NoteResponse(a: Asdu, now: Time)
      modifies this`interrogationRequestSent, this`history
      ensures Snapshot() == AfterResponse(client.config.definitions, old(Snapshot()), a, now)
    {
      if a.cot == COT_INTERROGATED_BY_STATION {
        if interrogationRequestState == 2 { interrogationRequestSent := now; }
        Note(Response(now, Answered(client.config.definitions, a, |a.objects|)));
      }
    }

    method PassToClient(a: Asdu, now: Time) returns (handled: bool)
      requires Configured() && client.outstanding.Valid()
      modifies this`interrogationRequestSent, this`history, client`giStatus, client`listOfStationGroupDatapoints,
               client`ingested, client.config`definitions, client.outstanding, client.outstanding.Entries(),
               client.Active()`giRequested, client.Active()`history
      ensures client.outstanding.Valid()
      ensures SameView(client.config.definitions, old(client.config.definitions))
      ensures handled == IsHandled(a, |a.objects|)
      ensures client.ingested == old(client.ingested) + ProgressEvents(client.signal, old(client.giStatus), a)
                                 + PublishedFor(cfg.defs, a)
      ensures client.outstanding.Contents() ==
              Replies(cfg.defs, a, |a.objects|, old(client.outstanding.Contents()), index, now)
      ensures Snapshot() == HandleAsdu(cfg, old(Snapshot()), a, now, client.activeConnection == this)
    {
      hide HandleAsdu, AfterElements, AfterProgress, AfterResponse, Replies, PublishedFor, IsHandled, SameView,
           WellKeyed, StationGroup, ProgressEvents;
      ghost var defs, s, table := client.config.definitions, Snapshot(), client.outstanding.Contents();
      NoteResponse(a, now);
      assert client.outstanding.Contents() == table;
      handled := client.HandleASDU(this, a, now);
      PassingMeans(defs, cfg, s, a, now, client.activeConnection == this, table, index);
    }

    method ConfirmClock(now: Time)
      modifies this`timeSynchronized, this`nextTimeSync, this`timeSyncCommandSent, this`history
      ensures SyncPart() == old(SyncPart()).(synchronized := true, next := After(now, cfg.timeSyncPeriod),
                                             commandSent := false)
      ensures history == Then(old(history), ClockConfirmed(now))
      ensures Adds(client.signal, old(history), history, client.ingested, client.ingested)
    {
      hide Adds, After;
      timeSynchronized := true;
      nextTimeSync := After(now, cfg.timeSyncPeriod);
      timeSyncCommandSent := false;
      Note(ClockConfirmed(now));
    }

    /** An answer to the open command: only the clock fields and the history change. */
    method AnswerClock(a: Asdu, now: Time)
      modifies this`timeSynchronized, this`nextTimeSync, this`timeSyncCommandSent, this`history
      ensures SyncPart() == ClockAnswered(cfg, old(Snapshot()), a, now).sync
      ensures history == ClockAnswered(cfg, old(Snapshot()), a, now).history
      ensures Adds(client.signal, old(history), history, old(client.ingested), client.ingested)
    {
      AddsNothing(client.signal, history, client.ingested);
      hide Adds, After;
      if timeSyncCommandSent {
        if a.cot == COT_ACTIVATION_CON {
          if !a.negative { ConfirmClock(now); }
        } else if a.cot == COT_UNKNOWN_TYPE_ID {
          timeSynchronized := true;
        }
      }
    }

    method AcceptClockReply(a: Asdu, now: Time)
      modifies this`timeSynchronized, this`nextTimeSync, this`timeSyncCommandSent, this`history
      ensures Snapshot() == ClockAnswered(cfg, old(Snapshot()), a, now)
      ensures Adds(client.signal, old(history), history, old(client.ingested), client.ingested)
    {
      AnsweringTouchesClock(cfg, Snapshot(), a, now);
      hide Adds, ClockAnswered;
      AnswerClock(a, now);
    }

    /** The C_CS_NA_1 case. */
    method OnClockReply(a: Asdu, now: Time)
      modifies this`timeSynchronized, this`nextTimeSync, this`timeSyncCommandSent,
               this`firstTimeSyncOperationCompleted, this`history
      ensures Snapshot() == ClockReply(cfg, old(Snapshot()), a, now)
      ensures Adds(client.signal, old(history), history, old(client.ingested), client.ingested)
    {
      hide ClockAnswered, After, Adds;
      AcceptClockReply(a, now);
      ghost var h, i := history, client.ingested;
      firstTimeSyncOperationCompleted := true;
      Note(ClockSeen);
      AddsCompose(client.signal, old(history), h, history, old(client.ingested), i, client.ingested);
    }

    method OnActCon(negative: bool)
      modifies this`interrogationRequestState, this`history, client`giStatus, client`ingested
      ensures Snapshot() == ActCon(old(Snapshot()), negative)
      ensures Adds(client.signal, old(history), history, old(client.ingested), client.ingested)
    {
      hide Fail, UpdateStatus, Adds;
      Note(GotActCon(negative));
      ghost var h, i := history, client.ingested;
      if interrogationRequestState == 1 {
        interrogationRequestState := 2;
        if negative {
          FailInterrogation();
        } else {
          ReportGiStatus(GiInProgress);
        }
        AddsCompose(client.signal, old(history), h, history, old(client.ingested), i, client.ingested);
      }
    }

    method FinishInterrogation()
      modifies this`history, client`giStatus, client`ingested
      ensures Snapshot() == Invalidate(UpdateStatus(old(Snapshot()), GiFinished))
      ensures Adds(client.signal, old(history), history, old(client.ingested), client.ingested)
    {
      hide Invalidate, UpdateStatus, Adds;
      ReportGiStatus(GiFinished);
      ghost var h, i := history, client.ingested;
      PublishUnanswered();
      AddsCompose(client.signal, old(history), h, history, old(client.ingested), i, client.ingested);
    }

    method OnActTerm()
      modifies this`interrogationRequestState, this`history, client`giStatus, client`ingested
      ensures Snapshot() == ActTerm(old(Snapshot()))
      ensures Adds(client.signal, old(history), history, old(client.ingested), client.ingested)
    {
      hide Invalidate, UpdateStatus, Adds;
      Note(GotActTerm);
      ghost var h, i := history, client.ingested;
      if interrogationRequestState == 2 {
        interrogationRequestState := 0;
        if client.giStatus == GiStarted || client.giStatus == GiInProgress {
          FinishInterrogation();
          AddsCompose(client.signal, old(history), h, history, old(client.ingested), i, client.ingested);
        }
      }
    }

    method OnOtherCause()
      modifies this`history, this`disconnect, this`connect, client`giStatus, client`ingested
      ensures Snapshot() == OtherCause(old(Snapshot()))
      ensures Adds(client.signal, old(history), history, old(client.ingested), client.ingested)
    {
      hide Fail, Adds, Describes;
      Note(GotOther);
      ghost var h, i := history, client.ingested;
      if client.giStatus == GiStarted || client.giStatus == GiInProgress {
        FailInterrogation();
        AddsCompose(client.signal, old(history), h, history, old(client.ingested), i, client.ingested);
        Disonnect();
      }
    }

    /** The C_IC_NA_1 case. */
    method OnInterrogationReply(a: Asdu)
      modifies this`interrogationRequestState, this`history, this`disconnect, this`connect,
               client`giStatus, client`ingested
      ensures Snapshot() == GiReply(old(Snapshot()), a)
      ensures Adds(client.signal, old(history), history, old(client.ingested), client.ingested)
      ensures QualityCalls(client.ingested) == old(QualityCalls(client.ingested))
              + (if QualityProofs.CauseEnds(old(interrogationRequestState), old(client.giStatus), a)
                 then InvalidUpdates(client.listOfStationGroupDatapoints) else [])
    {
      hide QualityCalls, QualityProofs.CauseEnds, GiReply, Adds;
      ghost var s, i := Snapshot(), client.ingested;
      ServeCause(a);
      QualityProofs.GiReplyPublishes(s, a);
      QualityProofs.GainedQuality(client.signal, s.history, history,
                                  QualityProofs.CauseEnds(s.gi.req, s.status, a),
                                  client.listOfStationGroupDatapoints, i, client.ingested);
    }

    /** The branches by cause. */
    method ServeCause(a: Asdu)
      modifies this`interrogationRequestState, this`history, this`disconnect, this`connect,
               client`giStatus, client`ingested
      ensures Snapshot() == GiReply(old(Snapshot()), a)
      ensures Adds(client.signal, old(history), history, old(client.ingested), client.ingested)
    {
      hide ActCon, ActTerm, OtherCause, Adds;
      if a.cot == COT_ACTIVATION_CON {
        OnActCon(a.negative);
      } else if a.cot == COT_ACTIVATION_TERMINATION {
        OnActTerm();
      } else {
        OnOtherCause();
      }
    }

    /** The switch over the types that handleASDU does not handle. */
    method ServeControl(a: Asdu, now: Time) returns (known: bool)
      modifies this, client`giStatus, client`ingested
      ensures Snapshot() == ControlReply(cfg, old(Snapshot()), a, now)
      ensures Adds(client.signal, old(history), history, old(client.ingested), client.ingested)
      ensures known <==> a.typeId in {M_EI_NA_1, C_CS_NA_1, C_IC_NA_1, C_TS_TA_1}
    {
      AddsNothing(client.signal, history, client.ingested);
      hide ClockReply, GiReply, Adds;
      known := true;
      if a.typeId == M_EI_NA_1 {
        endOfInitReceived := true;
      } else if a.typeId == C_CS_NA_1 {
        OnClockReply(a, now);
      } else if a.typeId == C_IC_NA_1 {
        OnInterrogationReply(a);
      } else if a.typeId != C_TS_TA_1 {
        known := false;
      }
    }

    /** m_asduReceivedHandler, up to the invariant of the connection. */
    method HandleReceived(a: Asdu, now: Time) returns (known: bool)
      requires Configured() && client.outstanding.Valid()
      modifies this, client`giStatus, client`listOfStationGroupDatapoints,
               client`ingested, client.config`definitions, client.outstanding, client.outstanding.Entries(),
               client.Active()`giRequested, client.Active()`history
      ensures client.outstanding.Valid()
      ensures SameView(client.config.definitions, old(client.config.definitions))
      ensures known <==> IsHandled(a, |a.objects|) || a.typeId in {M_EI_NA_1, C_CS_NA_1, C_IC_NA_1, C_TS_TA_1}
      ensures client.outstanding.Contents() ==
              Replies(cfg.defs, a, |a.objects|, old(client.outstanding.Contents()), index, now)
      ensures Snapshot() == Receive(cfg, old(Snapshot()), a, now, client.activeConnection == this)
      ensures AddsReception(client.signal, cfg, old(Snapshot()), a, now, client.activeConnection == this,
                            old(client.ingested), client.ingested)
    {
      hide HandleAsdu, ControlReply, Replies, PublishedFor, IsHandled, SameView, Describes, ProgressEvents, Adds;
      known := PassToClient(a, now);
      AddsNothing(client.signal, history, client.ingested);
      if !known {
        known := ServeControl(a, now);
      }
    }

    /** m_asduReceivedHandler. */
    method AsduReceived(a: Asdu, now: Time) returns (known: bool)
      requires Valid() && client.outstanding.Valid()
      modifies this, client`giStatus, client`listOfStationGroupDatapoints,
               client`ingested, client.config`definitions, client.outstanding, client.outstanding.Entries(),
               client.Active()`giRequested, client.Active()`history
      ensures Valid() && client.outstanding.Valid()
      ensures known <==> IsHandled(a, |a.objects|) || a.typeId in {M_EI_NA_1, C_CS_NA_1, C_IC_NA_1, C_TS_TA_1}
      ensures client.outstanding.Contents() ==
              Replies(cfg.defs, a, |a.objects|, old(client.outstanding.Contents()), index, now)
      ensures Snapshot() == Receive(cfg, old(Snapshot()), a, now, client.activeConnection == this)
      ensures AddsReception(client.signal, cfg, old(Snapshot()), a, now, client.activeConnection == this,
                            old(client.ingested), client.ingested)
      ensures QualityCalls(client.ingested) == old(QualityCalls(client.ingested))
              + (if QualityProofs.ReplyEnds(old(Snapshot()), a)
                 then InvalidUpdates(client.listOfStationGroupDatapoints) else [])
    {
      hide Receive, Replies, IsHandled, AddsReception, Link.Inv, CycleProofs.IteratorInRange, QualityCalls,
           QualityProofs.ReplyEnds;
      ghost var s, i := Snapshot(), client.ingested;
      CycleProofs.ReceptionKeepsIterator(cfg, Snapshot(), a, now, client.activeConnection == this);
      SessionLink.ReceptionKeepsLinkInv(cfg, Snapshot(), a, now, client.activeConnection == this);
      ghost var defs := client.config.definitions;
      known := HandleReceived(a, now);
      QualityProofs.ReceptionIngestsUnanswered(
        client.signal, cfg, s, a, now, client.activeConnection == this, i, client.ingested);
      SameViewIsTransitive(client.config.definitions, defs, cfg.defs);
      hide SameView, WellKeyed, StationGroup;
    }

    // ---- the connection thread ----

    /** Take the handle over and destroy it; the callback thread reports CLOSED meanwhile. */
    method DestroyHandle(dialFails: bool)
      modifies this`connectionState, this`connected, this`connecting, this`connection, this`destroyed
      ensures LinkPart() == Link.Destroy(old(LinkPart()), dialFails)
    {
      var con := connection;
      connection := Link.NoHandle;
      if con != Link.NoHandle {
        destroyed := destroyed + 1;
        if con.Open? || (con.Dialing? && dialFails) { OnClosed(); }
      }
    }

    /** `available` is whether the library can create a handle. */
    method PrepareConnection(available: bool) returns (success: bool)
      modifies this`connection, this`created
      ensures success <==> old(connection) == Link.NoHandle && available
      ensures connection == (if success then Link.Dialing else old(connection))
      ensures created == old(created) + if success then 1 else 0
    {
      success := false;
      if connection == Link.NoHandle {
        if available {
          connection := Link.Dialing;
          created := created + 1;
          success := true;
        }
      }
    }

    method DialPeer(now: Time, env: Link.RoundInput)
      modifies this`connectionState, this`connected, this`connecting, this`connection, this`created,
               this`destroyed, this`startDtSent, this`delayExpirationTime
      ensures LinkPart() == Link.Dial(old(LinkPart()), now, env.dialFails, env.created)
    {
      startDtSent := false;
      DestroyHandle(env.dialFails);
      var prepared := PrepareConnection(env.created);
      if prepared {
        connectionState := Link.Connecting;
        connecting := true;
        delayExpirationTime := now + Link.RECONNECT_DELAY;
      } else {
        connectionState := Link.FatalError;
      }
    }

    method ServeDisconnect(dropFails: bool)
      modifies this`connectionState, this`connected, this`connecting, this`connection, this`destroyed, this`disconnect
      ensures old(disconnect) ==>
                && connection == Link.NoHandle && !connected && !connecting && !disconnect
                && destroyed == old(destroyed) + if old(connection) == Link.NoHandle then 0 else 1
      ensures !old(disconnect) ==> LinkPart() == old(LinkPart())
      ensures LinkPart() == Link.ServeDisconnect(old(LinkPart()), dropFails)
    {
      if disconnect {
        connected := false;
        connecting := false;
        disconnect := false;
        DestroyHandle(dropFails);
      }
    }

    /** The states of the thread other than CONNECTED_ACTIVE. */
    method AdvanceState(now: Time, env: Link.RoundInput)
      requires connectionState != Link.Active
      modifies this`connectionState, this`connected, this`connecting, this`connection, this`created,
               this`destroyed, this`startDtSent, this`delayExpirationTime
      ensures LinkPart() == Link.Switch(old(LinkPart()), now, env.dialFails, env.created)
    {
      hide Link.Dial;
      match connectionState {
        case Idle =>
          if connect { DialPeer(now, env); }
        case Connecting =>
          if now > delayExpirationTime { connectionState := Link.Idle; }
        case Closed =>
          delayExpirationTime := now + Link.RECONNECT_DELAY;
          connectionState := Link.WaitForReconnect;
        case WaitForReconnect =>
          if now >= delayExpirationTime { connectionState := Link.Idle; }
        case _ =>
      }
    }

    method ServeActive(now: Time, env: RoundInput)
      requires Valid() && connectionState == Link.Active
      modifies this, client`giStatus, client`listOfStationGroupDatapoints, client`ingested
      ensures Snapshot() == Periodics(cfg, old(Snapshot()), now, env.clockSent, env.giSent)
      ensures Adds(client.signal, old(history), history, old(client.ingested), client.ingested)
    {
      hide Periodics, Describes, Adds;
      assert InSession();
      hide Link.Inv, InSession;
      ExecutePeriodicTasks(now, env.clockSent, env.giSent);
    }

    method ServeInactive(now: Time, env: RoundInput)
      requires connectionState != Link.Active
      modifies this`connectionState, this`connected, this`connecting, this`connection, this`created,
               this`destroyed, this`startDtSent, this`delayExpirationTime
      ensures var s := old(Snapshot());
              Snapshot() == s.(link := Link.Switch(s.link, now, env.link.dialFails, env.link.created))
    {
      hide Link.Switch;
      AdvanceState(now, env.link);
    }

    /** The switch over the connection state. */
    method ServeState(now: Time, env: RoundInput)
      requires Valid()
      modifies this, client`giStatus, client`listOfStationGroupDatapoints, client`ingested
      ensures var s := old(Snapshot());
              Snapshot() == if s.link.conState == Link.Active then Periodics(cfg, s, now, env.clockSent, env.giSent)
                            else s.(link := Link.Switch(s.link, now, env.link.dialFails, env.link.created))
      ensures Adds(client.signal, old(history), history, old(client.ingested), client.ingested)
    {
      AddsNothing(client.signal, history, client.ingested);
      hide Periodics, Link.Switch, Describes, Link.Inv, Adds;
      if connectionState == Link.Active {
        ServeActive(now, env);
      } else {
        ServeInactive(now, env);
      }
    }

    /** One round of _conThread, up to the invariant of the connection. */
    method PerformRound(now: Time, env: RoundInput)
      requires Valid()
      modifies this, client`giStatus, client`listOfStationGroupDatapoints, client`ingested
      ensures Snapshot() == Round(cfg, old(Snapshot()), now, env)
      ensures Adds(client.signal, old(history), history, old(client.ingested), client.ingested)
    {
      hide Periodics, Link.Switch, Link.ServeDisconnect, Link.Inv, Describes, CycleProofs.IteratorInRange, Adds;
      ServeState(now, env);
      ServeDisconnect(env.link.dropFails);
    }

    /** One round of _conThread. */
    method ConThreadRound(now: Time, env: RoundInput)
      requires Valid()
      modifies this, client`giStatus, client`listOfStationGroupDatapoints, client`ingested
      ensures Valid()
      ensures Snapshot() == Round(cfg, old(Snapshot()), now, env)
      ensures Adds(client.signal, old(history), history, old(client.ingested), client.ingested)
      ensures QualityCalls(client.ingested) == old(QualityCalls(client.ingested))
              + (if QualityProofs.CycleFails(cfg, old(Snapshot()), now, env.giSent)
                 then InvalidUpdates(client.listOfStationGroupDatapoints) else [])
    {
      hide Round, Link.Inv, Describes, CycleProofs.IteratorInRange, Adds, QualityCalls, QualityProofs.CycleFails;
      CycleProofs.RoundKeepsIterator(cfg, Snapshot(), now, env);
      SessionLink.RoundKeepsLinkInv(cfg, Snapshot(), now, env);
      ghost var s, i := Snapshot(), client.ingested;
      PerformRound(now, env);
      QualityProofs.RoundIngestsUnanswered(client.signal, cfg, s, now, env, i, client.ingested);
    }

    /** The end of the thread. */
    method EndThread(dialFails: bool)
      requires Valid()
      modifies this`connectionState, this`connected, this`connecting, this`connection, this`destroyed
      ensures LinkPart() == Link.Terminate(old(LinkPart()), dialFails)
      ensures created == destroyed
    {
      DestroyHandle(dialFails);
    }
  }
}
