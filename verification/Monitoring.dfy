/** The monitoring thread as a program: it watches the connections of a client, picks the
    active one, and is proved to do one round of `Supervisor` after another. */
module Monitoring {
  import opened Protocol
  import opened Exchange
  import opened Publication
  import opened Client
  import Commands
  import Link
  import QualityProofs
  import Supervisor

  /** What the supervisor sees of a list of connections. */
  ghost function Links(cs: seq<Connection>): (r: seq<Link.Link>)
    reads cs
    ensures |r| == |cs| && forall i | 0 <= i < |cs| :: r[i] == cs[i].LinkPart()
  {
    if cs == [] then [] else [cs[0].LinkPart()] + Links(cs[1..])
  }

  function Autostarts(cs: seq<Connection>): (r: seq<bool>)
    ensures |r| == |cs| && forall i | 0 <= i < |cs| :: r[i] == cs[i].autostart
  {
    if cs == [] then [] else [cs[0].autostart] + Autostarts(cs[1..])
  }

  function NonTopicalUpdates(defs: Definitions): seq<Ingested> {
    QualityUpdates(MonitoredPoints(defs), |MonitoredPoints(defs)|, NonTopical)
  }

  /** What a round publishes, in order: all monitored points as non-topical exactly if the round
      is marked so, then the south event of a changed connection status. */
  function RoundOutput(signal: string, defs: Definitions, before: Supervisor.Monitor, after: Supervisor.Monitor)
    : seq<Ingested>
  {
    (if after.rounds.Then? && after.rounds.published then NonTopicalUpdates(defs) else [])
    + (if |after.changes| > |before.changes| then SouthEvent(signal, ConnectionEvent(signal, after.status)) else [])
  }

  /** One non-topical update per configured point in monitoring direction, in address order. */
  lemma NonTopicalUpdatesMean(defs: Definitions)
    ensures var points, updates := MonitoredPoints(defs), NonTopicalUpdates(defs);
            |updates| == |points|
            && forall i | 0 <= i < |points| :: updates[i] == Quality(points[i].tag, points[i], NonTopical)
  {
    QualityProofs.QualityUpdatesMean(MonitoredPoints(defs), |MonitoredPoints(defs)|, NonTopical);
  }

  class MonitoringThread {
    const client: Client
    const connections: seq<Connection>
    const cmdExecTimeout: nat
    var qualityUpdateTimer: int
    var qualityUpdated: bool
    var firstConnected: bool
    var backupConnectionStartTime: int
    ghost var rounds: Supervisor.Rounds

    /** Connections are numbered by their position; the active one is among them. */
    ghost predicate Valid()
      reads client`activeConnection
    {
      && (forall i | 0 <= i < |connections| :: connections[i].index == i)
      && (client.activeConnection != null ==> client.activeConnection in connections)
    }

    ghost function Active(): Option<nat>
      reads client`activeConnection
    {
      if client.activeConnection == null then None else Some(client.activeConnection.index)
    }

    ghost function View(): Supervisor.Monitor
      reads this, client`activeConnection, client`connStatus, client`changes
    {
      Supervisor.Monitor(Active(), client.connStatus, qualityUpdateTimer, qualityUpdated, firstConnected,
                         backupConnectionStartTime, client.changes, rounds)
    }

    ghost function Whole(): Supervisor.System
      reads this, client`activeConnection, client`connStatus, client`changes, connections
    {
      Supervisor.System(Links(connections), Autostarts(connections), View())
    }

    constructor (client: Client, connections: seq<Connection>, cmdExecTimeout: nat, halNow: int)
      requires forall i | 0 <= i < |connections| :: connections[i].index == i
      requires client.activeConnection == null && client.connStatus == Supervisor.NotConnected && client.changes == []
      ensures this.client == client && this.connections == connections && Valid()
      ensures View() == Supervisor.InitialMonitor(halNow)
    {
      this.client, this.connections, this.cmdExecTimeout := client, connections, cmdExecTimeout;
      qualityUpdateTimer, qualityUpdated, firstConnected := 0, false, false;
      backupConnectionStartTime := halNow + Supervisor.BACKUP_CONNECTION_TIMEOUT;
      rounds := Supervisor.NoRounds;
    }

    /** The search of the first open connection. */
    method FindFirstOpen() returns (found: Connection?)
      requires Valid()
      ensures found == null ==> Supervisor.FirstOpen(Links(connections)) == None
      ensures found != null ==> found in connections && Supervisor.FirstOpen(Links(connections)) == Some(found.index)
    {
      hide Links, Supervisor.FirstOpen;
      ghost var links := Links(connections);
      var i := 0;
      while i < |connections|
        invariant 0 <= i <= |connections|
        invariant forall j | 0 <= j < i :: !links[j].connected
      {
        if connections[i].connected { return connections[i]; }
        i := i + 1;
      }
      found := null;
    }

    method ConnectIfDisconnected(c: Connection)
      modifies c`connect, c`disconnect
      ensures var l := old(c.LinkPart());
              c.LinkPart() == if Link.IsDisconnected(l) then Link.Connect(l) else l
    {
      if !c.connecting && !c.connected { c.Connect(); }
    }

    /** Connect every connection that is neither connected nor connecting. */
    method ConnectAll()
      requires Valid()
      modifies (set c | c in connections)`connect, (set c | c in connections)`disconnect
      ensures Links(connections) == Supervisor.ConnectAll(old(Links(connections)))
    {
      hide Links, Supervisor.ConnectAll, Describes, Link.Inv, Link.Connect, Link.IsDisconnected;
      ghost var links := Links(connections);
      var i := 0;
      while i < |connections|
        invariant 0 <= i <= |connections|
        invariant forall j | 0 <= j < i :: connections[j].LinkPart() == Supervisor.ConnectAll(links)[j]
        invariant forall j | i <= j < |connections| :: connections[j].LinkPart() == links[j]
      {
        ConnectIfDisconnected(connections[i]);
        i := i + 1;
      }
    }

    /** Close every other open connection that is not configured to stay open. */
    method DropUnneeded()
      requires Valid() && client.activeConnection != null
      modifies (set c | c in connections)`connect, (set c | c in connections)`disconnect
      ensures Links(connections) ==
              Supervisor.DropUnneeded(old(Links(connections)), Autostarts(connections), Active().value, 0)
    {
      hide Links, Autostarts, Supervisor.DropUnneeded, Describes, Link.Inv;
      ghost var links := Links(connections);
      ghost var goal := Supervisor.DropUnneeded(links, Autostarts(connections), Active().value, 0);
      var i := 0;
      while i < |connections|
        invariant 0 <= i <= |connections|
        invariant forall j | 0 <= j < i :: connections[j].LinkPart() == goal[j]
        invariant forall j | i <= j < |connections| :: connections[j].LinkPart() == links[j]
      {
        if connections[i] != client.activeConnection {
          if connections[i].connected && !connections[i].autostart { connections[i].Disonnect(); }
        }
        i := i + 1;
      }
    }

    method ActivateLink(found: Connection)
      requires Valid() && found in connections
      modifies found`connection, found`startDtSent, found`connectionState, client`activeConnection
      ensures Valid() && client.activeConnection == found
      ensures Links(connections) == old(Links(connections))[found.index := Link.Activate(old(found.LinkPart()))]
    {
      hide Links, Describes, Link.Inv;
      found.Activate();
      client.activeConnection := found;
    }

    method ForgetOutage(now: Time, halNow: int)
      modifies this`backupConnectionStartTime, this`firstConnected, this`qualityUpdateTimer, this`qualityUpdated,
               this`rounds
      ensures View() == old(View()).(firstConnected := true, qualityUpdateTimer := 0, qualityUpdated := false,
                                     backupConnectionStartTime := halNow + Supervisor.BACKUP_CONNECTION_TIMEOUT,
                                     rounds := Supervisor.Then(old(rounds), now, Supervisor.ActivatedOne, false))
    {
      backupConnectionStartTime := halNow + Supervisor.BACKUP_CONNECTION_TIMEOUT;
      firstConnected := true;
      qualityUpdateTimer := 0;
      qualityUpdated := false;
      rounds := Supervisor.Then(rounds, now, Supervisor.ActivatedOne, false);
    }

    /** The first open connection becomes the active one. */
    method Promote(found: Connection, now: Time, halNow: int)
      requires Valid() && found in connections
      modifies this`backupConnectionStartTime, this`firstConnected, this`qualityUpdateTimer, this`qualityUpdated,
               this`rounds, found`connection, found`startDtSent, found`connectionState,
               client`activeConnection, client`connStatus, client`changes, client`ingested
      ensures Valid()
      ensures client.ingested == old(client.ingested) +
              RoundOutput(client.signal, client.config.definitions, old(View()), View())
      ensures Links(connections) == old(Links(connections))[found.index := Link.Activate(old(found.LinkPart()))]
      ensures View() == Supervisor.UpdateStatus(old(View()), Supervisor.Started).(
                active := Some(found.index), firstConnected := true, qualityUpdateTimer := 0, qualityUpdated := false,
                backupConnectionStartTime := halNow + Supervisor.BACKUP_CONNECTION_TIMEOUT,
                rounds := Supervisor.Then(old(rounds), now, Supervisor.ActivatedOne, false))
    {
      hide Links;
      ActivateLink(found);
      client.UpdateConnectionStatus(Supervisor.Started);
      ForgetOutage(now, halNow);
    }

    /** The quality branch: after 500 ms without any open connection, all monitored points
        are published once as non-topical. */
    method WaitForQuality(now: Time)
      modifies this`qualityUpdateTimer, this`qualityUpdated, this`rounds, client`ingested
      ensures View() == Supervisor.WaitForQuality(old(View()), now)
      ensures client.ingested == old(client.ingested) +
              if Supervisor.WaitForQuality(old(View()), now).rounds.published
              then NonTopicalUpdates(client.config.definitions) else []
    {
      ghost var published := false;
      if firstConnected {
        if !qualityUpdated {
          if qualityUpdateTimer != 0 {
            if now > qualityUpdateTimer {
              client.UpdateQualityForAllDataObjects(NonTopical);
              qualityUpdated := true;
              published := true;
            }
          } else {
            qualityUpdateTimer := now + Supervisor.QUALITY_UPDATE_TIMEOUT;
          }
        }
      }
      rounds := Supervisor.Then(rounds, now, Supervisor.NothingOpen, published);
    }

    method NoteOutage(now: Time)
      modifies this`qualityUpdateTimer, this`qualityUpdated, this`rounds,
               client`ingested, client`connStatus, client`changes
      ensures View() == Supervisor.UpdateStatus(Supervisor.WaitForQuality(old(View()), now), Supervisor.NotConnected)
      ensures client.ingested == old(client.ingested) +
              RoundOutput(client.signal, client.config.definitions, old(View()), View())
    {
      hide NonTopicalUpdates;
      WaitForQuality(now);
      client.UpdateConnectionStatus(Supervisor.NotConnected);
    }

    /** After five seconds without any open connection, connect all. */
    method ConnectAllWhenDue(halNow: int)
      requires Valid()
      modifies this`backupConnectionStartTime,
               (set c | c in connections)`connect, (set c | c in connections)`disconnect
      ensures if halNow > old(backupConnectionStartTime)
              then Links(connections) == Supervisor.ConnectAll(old(Links(connections)))
                   && View() == old(View()).(backupConnectionStartTime := halNow + Supervisor.BACKUP_CONNECTION_TIMEOUT)
              else Links(connections) == old(Links(connections)) && View() == old(View())
    {
      hide Links, Supervisor.ConnectAll;
      if halNow > backupConnectionStartTime {
        ConnectAll();
        backupConnectionStartTime := halNow + Supervisor.BACKUP_CONNECTION_TIMEOUT;
      }
    }

    /** Nothing is open: wait for the quality update, and after five seconds connect all. */
    method EndureOutage(now: Time, halNow: int)
      requires Valid()
      modifies this`qualityUpdateTimer, this`qualityUpdated, this`rounds, this`backupConnectionStartTime,
               client`ingested, client`connStatus, client`changes,
               (set c | c in connections)`connect, (set c | c in connections)`disconnect
      ensures client.ingested == old(client.ingested) +
              RoundOutput(client.signal, client.config.definitions, old(View()), View())
      ensures var m := Supervisor.UpdateStatus(Supervisor.WaitForQuality(old(View()), now), Supervisor.NotConnected);
              if halNow > old(backupConnectionStartTime)
              then Links(connections) == Supervisor.ConnectAll(old(Links(connections)))
                   && View() == m.(backupConnectionStartTime := halNow + Supervisor.BACKUP_CONNECTION_TIMEOUT)
              else Links(connections) == old(Links(connections)) && View() == m
    {
      hide Links, Supervisor.WaitForQuality, Supervisor.ConnectAll, Supervisor.UpdateStatus;
      NoteOutage(now);
      ConnectAllWhenDue(halNow);
    }

    /** A round without active connection. */
    method Search(now: Time, halNow: int)
      requires Valid() && client.activeConnection == null
      modifies this, client`activeConnection, client`connStatus, client`changes, client`ingested, connections
      ensures Valid()
      ensures client.ingested == old(client.ingested) +
              RoundOutput(client.signal, client.config.definitions, old(View()), View())
      ensures Whole() == Supervisor.Round(old(Whole()), now, halNow)
    {
      hide Links, Supervisor.WaitForQuality, Supervisor.ConnectAll, Supervisor.UpdateStatus, Supervisor.FirstOpen;
      var found := FindFirstOpen();
      if found != null {
        Promote(found, now, halNow);
      } else {
        EndureOutage(now, halNow);
      }
    }

    /** The active connection was lost. */
    method ForgetActive(now: Time)
      requires Valid() && client.activeConnection != null
      modifies this`rounds, client`activeConnection
      ensures Valid() && Links(connections) == old(Links(connections))
      ensures View() == old(View()).(
                active := None, rounds := Supervisor.Then(old(rounds), now, Supervisor.ActiveLost, false))
    {
      hide Links;
      rounds := Supervisor.Then(rounds, now, Supervisor.ActiveLost, false);
      client.activeConnection := null;
    }

    /** The active connection is up: the others are not needed. */
    method KeepActive(now: Time)
      requires Valid() && client.activeConnection != null
      modifies this`rounds, (set c | c in connections)`connect, (set c | c in connections)`disconnect
      ensures Links(connections) ==
              Supervisor.DropUnneeded(old(Links(connections)), Autostarts(connections), old(Active()).value, 0)
      ensures View() == old(View()).(rounds := Supervisor.Then(old(rounds), now, Supervisor.ActiveUp, false))
    {
      hide Links, Autostarts, Supervisor.DropUnneeded;
      rounds := Supervisor.Then(rounds, now, Supervisor.ActiveUp, false);
      DropUnneeded();
    }

    /** A round with an active connection: drop it if it was lost, else drop the others. */
    method Watch(now: Time, halNow: int)
      requires Valid() && client.activeConnection != null
      modifies this`backupConnectionStartTime, this`rounds, client`activeConnection, connections
      ensures Valid()
      ensures client.ingested == old(client.ingested) +
              RoundOutput(client.signal, client.config.definitions, old(View()), View())
      ensures Whole() == Supervisor.Round(old(Whole()), now, halNow)
    {
      hide Links, Supervisor.DropUnneeded, NonTopicalUpdates;
      backupConnectionStartTime := halNow + Supervisor.BACKUP_CONNECTION_TIMEOUT;
      if !client.activeConnection.connected {
        ForgetActive(now);
      } else {
        KeepActive(now);
      }
    }

    /** The part of a round that looks after the connections. */
    method Supervise(now: Time, halNow: int)
      requires Valid()
      modifies this, client`activeConnection, client`connStatus, client`changes, client`ingested, connections
      ensures Valid()
      ensures old(client.activeConnection == null) && (forall c | c in connections :: !old(c.connected)) ==>
                client.activeConnection == null && client.connStatus == Supervisor.NotConnected
      ensures old(client.activeConnection == null) && (exists c :: c in connections && old(c.connected)) ==>
                client.activeConnection != null && client.connStatus == Supervisor.Started
      ensures client.ingested == old(client.ingested) +
              RoundOutput(client.signal, client.config.definitions, old(View()), View())
      ensures Whole() == Supervisor.Round(old(Whole()), now, halNow)
    {
      hide Supervisor.Round, Links, NonTopicalUpdates, RoundOutput;
      if client.activeConnection == null { FindingsAreReported(now, halNow); }
      if client.activeConnection == null {
        Search(now, halNow);
      } else {
        Watch(now, halNow);
      }
    }

    /** What the next round reports without a chosen connection. */
    lemma FindingsAreReported(now: Time, halNow: int)
      requires Valid() && client.activeConnection == null
      ensures var m := Supervisor.Round(Whole(), now, halNow).monitor;
              if exists c :: c in connections && c.connected
              then m.active.Some? && m.status == Supervisor.Started
              else m.active == None && m.status == Supervisor.NotConnected
    {
      var links := Links(connections);
      Supervisor.FindingsAreTrue(Whole(), now, halNow);
      assert Supervisor.Step(Whole(), Supervisor.MonitorRound(now, halNow)) == Supervisor.Round(Whole(), now, halNow);
      hide Supervisor.Round;
      forall i | 0 <= i < |links| ensures links[i].connected == connections[i].connected {
      }
      if c :| c in connections && c.connected {
        var i :| 0 <= i < |connections| && connections[i] == c;
        assert links[i].connected;
      }
    }

    /** One round of _monitoringThread: the connections, then the time-outs of the commands. */
    method Round(now: Time, halNow: int)
      requires Valid() && client.outstanding.Valid()
      modifies this, client`activeConnection, client`connStatus, client`changes, client`ingested, connections,
               client.outstanding
      ensures Valid() && client.outstanding.Valid()
      ensures old(client.activeConnection == null) && (forall c | c in connections :: !old(c.connected)) ==>
                client.activeConnection == null && client.connStatus == Supervisor.NotConnected
      ensures old(client.activeConnection == null) && (exists c :: c in connections && old(c.connected)) ==>
                client.activeConnection != null && client.connStatus == Supervisor.Started
      ensures client.ingested == old(client.ingested) +
              RoundOutput(client.signal, client.config.definitions, old(View()), View())
      ensures Whole() == Supervisor.Round(old(Whole()), now, halNow)
      ensures client.outstanding.Contents() == Commands.Sweep(old(client.outstanding.Contents()), cmdExecTimeout, now)
    {
      hide Supervisor.Round, Links, Commands.Sweep, RoundOutput;
      Supervise(now, halNow);
      client.outstanding.CheckOutstandingCommandTimeouts(cmdExecTimeout, now);
    }
  }
}
