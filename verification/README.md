# A model of an IEC 60870-5-104 client with redundant connections

The project models the client side of an IEC 60870-5-104 master: the connection object with its
thread and library callbacks, the supervisor that picks one of several connections, the general
interrogation and clock synchronization that run on it, the table of outstanding commands, and the
way received ASDUs are filtered through the exchange configuration. It states what these machines
keep in every run and proves it.

`dafny verify dfyconfig.toml` checks the whole project.

## How it is laid out

- **Values.** `Session` holds one connection's session as functions from state to state, each of
  which also extends a history; `Link` is the connection below it, `Supervisor` one round of the
  monitoring thread, `Commands` the command table, `Reception` the meaning of an ASDU, `Exchange` and
  `TypeMatching` the exchange configuration. `Fleet` puts any number of sessions, the supervisor and
  the shared GI status and pending list together.
- **Programs.** `Client`, `Monitoring`, `CommandTable` and `ExchangeConfig` hold the classes, with the
  fields the source updates in place, its loops and its branches. Every method is proved to do to the
  fields exactly what the value-level function does (`Snapshot() == Round(cfg, old(Snapshot()), ...)`),
  and to hand to the ingest callback exactly what the history gained stands for (`Adds`, in
  `Publication`). `Intake` connects the object-by-object loop of handleASDU with the meaning of the
  whole ASDU.
- **Proofs.** `RequestProofs`, `RequestTheorems`, `CycleProofs`, `PendingProofs`, `SyncProofs`,
  `FlagProofs`, `CommandRuns`, `SupervisorTiming` and `FleetTheorems` are about whole runs. Each reads a
  history with a reference bookkeeper that knows nothing of the implementation's variables (an automaton
  of one interrogation, a set of answered points, a list of attempted addresses) and shows that the
  variables agree with it at all times. `CycleStarts`, `CycleProgress`, `QualityProofs` and `StatusProofs`
  say of every state and event, in both directions, when a cycle begins, how it goes on, what is published
  and which status is announced. `Scenarios` has the stretches of concrete runs from which
  examples are put together, each of them from the start of the client. `ParallelLimit` and `Locks` look
  inside the steps, at single lock operations of many threads.

`Fleet.EveryConnectionRunsItsSession` is the bridge between one session and the whole client: each
connection sees the steps of the others only as `Elsewhere` events, which change the shared status and
list while it is not active, so a theorem about all session runs is a theorem about every connection.

## Assumptions

- One round of a thread, one callback and one caller's operation are atomic, and use one reading of
  the clock, except in `ParallelLimit` and `Locks`.
- Library events belong to the current handle: OPENED comes at most once per dialed handle, STARTDT_CON
  only after STARTDT was sent on it, destroying or closing an open handle reports CLOSED before it
  returns, STOPDT_CON never comes. With several connections, ASDUs arrive only on a handle on which
  STARTDT was sent.
- The monotonic clock does not run backwards and stays below 2^63 ms. `seconds * 1000` is a 32-bit
  product in the source; the model wraps it in two's complement and shows where that matters: the
  bound is 2147483 seconds.
- Answers of the library (is a command accepted, can a handle be created, does a dialing handle report
  CLOSED when destroyed) are inputs of the step, and so is the time.

## Where the code and its comments differ, and other behaviour worth knowing

- `gi_time` is described as a limit per step (include/iec104_client_config.h:134), but ACT_CON does not
  restart the clock: it runs from the sending, or from the last response accepted after ACT_CON
  (`RequestTheorems.DeadlineIsKept`). The second step has a limit of its own only if ACT_CON arrives in the
  millisecond of the sending (`RequestTheorems.ConfirmationRestartsNoDeadline`); a request asked at 0 and
  confirmed at 5 is failed less than gi_time after the confirmation (`RequestTheorems.SecondStepIsCutShort`).
- STARTDT_CON resets neither the request state nor the open clock synchronization command. A request
  carried over from a lost session can be reported FINISHED although it was refused
  (`RequestTheorems.RefusedRequestIsReportedFinished`; `RequestTheorems.FinishedIsSound` says exactly
  when), and a synchronization command left unanswered blocks clock synchronization and interrogation in
  all later sessions until some C_CS_NA_1 arrives (`SyncProofs.SessionIsBlockedExactly` says exactly when,
  `SyncProofs.SomeSessionIsBlocked` gives a run from the start of the client).
- A request for an interrogation counts as served when its cycle begins, even if the library refuses the
  broadcast: nothing is asked, and nothing tries again. Without periodic cycles the status then stays STARTED,
  from which no later request is served until a new session, an end of initialization, a failing C_IC_NA_1,
  or an interrogation of another connection that fails or finishes (`FlagProofs.RequestsCoalesce`,
  `FlagProofs.RefusedBroadcastLosesTheRequest`, `FlagProofs.StrandedRequestsStarve`).
- Type matching falls through from C_SE_TB_1 to C_SE_NC_1, so it is neither symmetric nor transitive
  (`TypeMatching.MatchingIsNotAnEquivalence`), which is harmless for commands and their replies
  (`Reception.AcceptedCommandGetsItsReplies`).
- Lookups insert null entries at both levels of the definition map; nothing observes them.
- An ASDU without any decodable object counts as handled whatever its type, so such a C_IC_NA_1,
  C_CS_NA_1 or M_EI_NA_1 is ignored (`Reception.HandledMeans`).
- Monitor rounds ten seconds apart are just too slow to notice a lost and re-opened link, and an
  overlooked link is never activated again until it closes
  (`SupervisorTiming.ReconnectionsAreNoticedExactly`, `SupervisorTiming.OverlookedStaysOverlooked`).

## Model

| member | source | states |
|---|---|---|
| `TypeMatching.IsMessageTypeMatching` | src/iec104_client_config.cpp:137-368 | over all integers the switch decides "same information with or without time tag", except for the one extra pair C_SE_TB_1 expected, C_SE_TC_1 received |
| `TypeMatching.MatchingIsNotAnEquivalence` | src/iec104_client_config.cpp:343-353 | matching is symmetric at a pair exactly when the pair is not {C_SE_TB_1, C_SE_TC_1}, and transitive along a chain exactly when the chain is not one of the two that use the extra pair |
| `TypeMatching.CommandCheckCoversReply` | src/iec104_client.cpp:1390-1396 | whatever configured type passes the check of a command's untimed type also accepts the type actually sent; the converse fails only at the extra pair |
| `Exchange.LookupsAreInvisible` | src/iec104_client_config.cpp:370-391 | after any sequence of lookups every later lookup and check answers as if none had happened |
| `Exchange.EnumerateIsExact` | src/iec104_client.cpp:280-293 | walking the two-level map yields every kept definition once, in (CA, IOA) order, and nothing else |
| `Exchange.LookupHistoryIsHarmless` | src/iec104_client_config.cpp:374 | null entries inserted by lookups change no check, not the station group and not the list of monitored points |
| `Exchange.ListsAreExact` | src/iec104_client.cpp:214-222 | the station group is exactly the configured points with an odd group number, the monitored points exactly those with a type below 41, each once and in address order |
| `ExchangeConfig.Config.CheckExchangeDataLayer` | src/iec104_client_config.cpp:370-391 | the lookup in place: the answer comes from the state before, the null entries stay behind |
| `ExchangeConfig.Config.LoadDefinitions` | src/iec104_client_config.cpp:1060-1218 | after the loop every address holds the last accepted item for it, each under its own key; the trigger set holds exactly the flagged addresses; items after a malformed one are not taken |
| `ExchangeConfig.Config.CollectCommonAddresses` | src/iec104_client_config.cpp:1220-1226 | every import keeps the listed addresses in front and adds the configured ones that are missing, strictly ascending; a first import lists exactly the configured ones in map order |
| `ExchangeConfig.Config.ImportExchangeConfig` | src/iec104_client_config.cpp:1060-1229 | complete exactly if no item is malformed; any number of imports keeps the list of interrogated addresses free of duplicates, with exactly the old and the configured ones in it; after a first one it is strictly ascending; an aborted import adds no address |
| `ExchangeConfig.LastAtMeans` | src/iec104_client_config.cpp:1193-1204 | what an address keeps is the last accepted point with it, and nothing if there is none |
| `ExchangeConfig.FlaggedMeans` | src/iec104_client_config.cpp:1206-1209 | the trigger addresses are exactly those of the accepted points marked as triggers |
| `Commands.ReplyTouchesOnlyTheOldest` | src/iec104_client.cpp:898-926 | a reply leaves every entry but the oldest matching one as it was and in order; that one is confirmed in place, removed or untouched, by cause and kind of command |
| `Commands.SweepIsStable` | src/iec104_client.cpp:141-174 | the time-out sweep keeps exactly the entries whose time-out has not passed, in table order |
| `Commands.SubmitConserves` | src/iec104_client.cpp:1381-1415 | a whole send conserves commands: a failed one leaves the table as it was, a successful one adds one entry at the end |
| `Commands.SentCommandIsQueued` | src/iec104_client.cpp:1348-1379 | accepted exactly if the address is configured and a positive limit leaves room; the new last entry then has the type sent, its own common and object address, the link it was sent on and the time of sending, and is not confirmed |
| `Commands.ReplyReachesItsCommand` | src/iec104_client.cpp:898-926 | a reply reaches the oldest entry of its type, addresses and link: ACT_CON restarts the clock of a process command and removes a set-point (types 48-50, 61-63), ACT_TERM removes a process command, other causes do nothing |
| `Commands.StrayReplyIsIgnored` | src/iec104_client.cpp:128-139 | a reply of a type, at an address or on a link that no entry has changes nothing |
| `CommandRuns.CommandsAreConservedAndBounded` | src/iec104_client.cpp:128-182 | in every run each accepted command is in the table or has left, once in all; a positive limit holds; a command confirmed k times is at most (k+1) * (time-out + longest gap between sweeps) old, in the table and when it leaves; a time-out removes it after its time-out has passed and at most one gap later |
| `CommandRuns.CommandIsAnswered` | src/iec104_client.cpp:1381-1415 | in every run: a command sent while no other of its type and address is open on the link is found by its replies and gives back the table as it was, a set-point after ACT_CON, a process command after ACT_CON and ACT_TERM |
| `CommandRuns.DepartedCommandsStayOut` | src/iec104_client.cpp:176-182 | a command that has left never comes back |
| `CommandTable.Outstanding.AddOutstandingCommandAndCheckLimit` | src/iec104_client.cpp:1348-1379 | appends one fresh entry of the type actually sent, with its addresses, link and time, or nothing exactly when a positive limit is reached |
| `CommandTable.Outstanding.CheckForOutstandingCommand` | src/iec104_client.cpp:128-139 | the loop returns the oldest entry with this type, address and connection, or null if there is none |
| `CommandTable.Outstanding.RemoveOutstandingCommand` | src/iec104_client.cpp:176-182 | erasing by object identity removes exactly that command from the table |
| `CommandTable.Outstanding.HandleProcessCommand` | src/iec104_client.cpp:898-926 | ACT_CON restarts the timer of the entry in place, ACT_TERM removes it, other causes change nothing |
| `CommandTable.Outstanding.HandleSetpoint` | src/iec104_client.cpp:1020-1042 | a set-point command leaves the table on ACT_CON |
| `CommandTable.ErasingTheLate` | src/iec104_client.cpp:147-173 | collecting the late entries and erasing them one by one equals the stable filter |
| `CommandTable.Outstanding.CheckOutstandingCommandTimeouts` | src/iec104_client.cpp:141-174 | the two loops remove exactly the expired commands and keep the order of the others |
| `CommandTable.Outstanding.Clear` | src/iec104_client.cpp:1319-1327 | at shutdown every remaining command leaves |
| `ParallelLimit.ParallelLimitIsNeverExceeded` | src/iec104_client.cpp:1348-1379 | with size check and append as separate steps of any number of callers, interleaved with any removals, a positive limit is never exceeded |
| `ParallelLimit.LimitNeedsTheMutex` | src/iec104_client.cpp:1355-1376 | for every positive limit: no interleaving exceeds it if and only if callers hold the active-connection mutex across check and append |
| `Locks.ProgramsAreDisciplined` | src/iec104_client_connection.cpp:1110-1131 | every thread's program takes the active-connection mutex first, at most one other lock under it, no lock twice, and holds nothing while a handle is closed or destroyed |
| `Locks.NoCircularWait` | src/iec104_client.cpp:1401-1412 | in every interleaving of any number of threads no waiting is circular and no chain of waits is longer than three threads |
| `Locks.NoDeadlock` | src/iec104_client_connection.cpp:1194-1208 | whenever a thread is inside a program some thread can proceed, even though destroying a handle waits for its callbacks |
| `Link.HandlesAreConserved` | src/iec104_client_connection.cpp:1095-1243 | in every run at most one handle is alive: created = destroyed + (1 if owned); connected means INACTIVE or ACTIVE; connected and connecting exclude each other; the end of the thread leaves none |
| `Link.DisconnectEndsTheConnection` | src/iec104_client_connection.cpp:1189-1211 | from every state the round after a disconnect request leaves no handle, every handle destroyed, connected, connecting and the request down |
| `Link.DisconnectedLinkIsClosed` | src/iec104_client_connection.cpp:1189-1211 | the state is then CLOSED if the handle was open or reports CLOSED; a dial that does not report it stays CONNECTING |
| `Link.NothingIsDroppedUnasked` | src/iec104_client_connection.cpp:1189-1211 | without a request a round does its work on the state and nothing else |
| `Link.LostLinkIsRedialed` | src/iec104_client_connection.cpp:1165-1182 | a lost link that is wanted is dialed again on a new handle by the first round but one that comes ten seconds or more after the loss was noticed, and not before |
| `Link.SilentDialIsRepeated` | src/iec104_client_connection.cpp:1143-1151 | an unanswered dial is repeated on a new handle by the first round but one later than ten seconds after it, and not before |
| `Link.HandlesAreCreatedExactly` | src/iec104_client_connection.cpp:1106-1141 | a round creates a handle if and only if the link is idle, a connection is wanted and the library can create one |
| `Link.FailedCreationIsFinal` | src/iec104_client_connection.cpp:1135-1138 | after the library could not create a handle no run dials, opens or activates the connection |
| `Supervisor.AtMostOneActiveLink` | src/iec104_client.cpp:1219-1310 | in every run over any number of connections at most one is connected and ACTIVE, and it is the chosen one, with status STARTED |
| `Supervisor.StatusChangesAlternate` | src/iec104_client.cpp:454-471 | connection status events strictly alternate, beginning with started |
| `Supervisor.FindingsAreTrue` | src/iec104_client.cpp:1223-1310 | what a round records is what it found on the links; a round that finds nothing open leaves the status NOT CONNECTED, one that activates a link leaves it STARTED, other rounds leave it |
| `Supervisor.StatusIsExact` | src/iec104_client.cpp:1242-1271 | in every run the status is NOT CONNECTED exactly before the first activation and while the latest round found nothing open; each such outage is announced exactly once, in its first such round, and so is its end |
| `Supervisor.FirstOpenIsActivated` | src/iec104_client.cpp:1223-1242 | a round without chosen link activates the first connected one, with STARTDT if it was INACTIVE, and touches no other |
| `Supervisor.BackupsAreConnectedExactly` | src/iec104_client.cpp:1273-1284 | a round that finds nothing open asks every link that is not connecting to connect if and only if more than five seconds passed since the clock was set |
| `Supervisor.UnneededLinksAreClosed` | src/iec104_client.cpp:1296-1308 | while the chosen link is up every other open link that need not stay open has no handle after the next round of its thread; the others are not touched |
| `Supervisor.LostLinkIsGivenUp` | src/iec104_client.cpp:1288-1294 | a chosen link that was lost is given up, and no link is touched |
| `SupervisorTiming.ConnectedActiveLinkIsInSession` | src/iec104_client.cpp:1288-1294 | with monitor rounds less than 10000 ms apart each round finds a connected active link in session |
| `SupervisorTiming.TenSecondsAreTooSlow` | src/iec104_client_connection.cpp:1165-1182 | a concrete run with rounds 10000 ms apart overlooks a re-opened link |
| `SupervisorTiming.ReconnectionsAreNoticedExactly` | src/iec104_client.cpp:1284-1310 | for every bound on the distance of monitor rounds: no run over any number of connections overlooks a reconnection if and only if the bound is at most 10000 ms |
| `SupervisorTiming.OverlookedStaysOverlooked` | src/iec104_client.cpp:1284-1310 | an overlooked link stays chosen and out of session, however often the monitor looks, until it closes |
| `SupervisorTiming.OneQualityUpdatePerOutage` | src/iec104_client.cpp:1240-1269 | in every run the non-topical update is published exactly in the first round that finds nothing open more than 500 ms after the outage's first such round: at most once per outage, never before the first activation, and never omitted |
| `Reception.HandledMeans` | src/iec104_client.cpp:518-705 | an ASDU counts as handled exactly if its type is one of the listed single, double and step point and measured value types or a command up to the short set-point, or none of its objects could be decoded |
| `Reception.DeliveriesFilterAndMap` | src/iec104_client.cpp:537-702 | the data points are the objects configured with a matching forwarded type, all of them, in order, with their own address and value and the configured tag |
| `Reception.AnsweredMeans` | src/iec104_client.cpp:555-565 | an interrogation response answers exactly the station-group points configured with a matching type at the addresses of its objects |
| `Reception.TriggersMean` | src/iec104_client.cpp:707-728 | an ASDU asks for an interrogation exactly if one of its delivered points went off (0 for single, 1 for double points) at a trigger address and its cause is not 20 |
| `Reception.WithoutAllIsMinus` | src/iec104_client.cpp:274-278 | removing answered points one by one, in any order and with repetitions, leaves the list minus the set of answered points |
| `Reception.AcceptedCommandGetsItsReplies` | src/iec104_client.cpp:1390-1396 | after any lookups, a reply with the type actually sent at an address that passed the command check is delivered under its tag and reaches the command table |
| `SessionLink.SessionRefinesLink` | src/iec104_client_connection.cpp:1095-1243 | every step of a session acts on the connection as the connection model allows, so its theorems hold for full sessions |
| `SessionLink.DisconnectEndsTheSession` | src/iec104_client_connection.cpp:1189-1211 | in a session, too, the round after a disconnect request leaves no handle |
| `SessionLink.FailingCauseEndsTheSession` | src/iec104_client_connection.cpp:818-833 | a C_IC_NA_1 with a failing cause while an interrogation is under way costs the connection: the next round leaves no handle and no wish to connect; any other ASDU leaves the link as it is |
| `RequestProofs.RequestsAreConserved` | src/iec104_client_connection.cpp:577-688 | in every run: interrogations sent = accepted ACT_TERMs + time-outs + overwritten requests + (1 if one is open); a request is overwritten only by the broadcast of a first cycle with a STARTDT_CON since it was sent; an open request means a cycle in progress; all-CA cycles overwrite nothing; one step sends at most one |
| `RequestTheorems.FinishedIsSound` | src/iec104_client_connection.cpp:774-835 | in every run the status becomes FINISHED only by an ACT_TERM for a confirmed request, and for a request of the current session exactly if the confirmation was positive and no other cause followed |
| `RequestTheorems.FailedRequestNeverFinishes` | src/iec104_client_connection.cpp:797-832 | after a negative ACT_CON or another cause nothing that arrives in the session makes that request FINISHED: a new request comes first |
| `RequestTheorems.CarriedRequestIsReportedFinished` | src/iec104_client_connection.cpp:106-114 | why "within a session" is needed: from any state with a confirmed or refused request open, a reconnection in all-CA mode and an ACT_TERM report it FINISHED, while the reference automaton still holds it as confirmed or refused as it was |
| `RequestTheorems.RefusedRequestIsReportedFinished` | src/iec104_client_connection.cpp:106-114 | this happens: a complete run from the start of the client asks, is refused by a negative ACT_CON, loses the link, reconnects, and reports the refused request FINISHED |
| `RequestTheorems.DeadlineIsKept` | src/iec104_client_connection.cpp:590-632 | with 0 < gi_time <= 2147483 a round leaves an open request alone if and only if it is at most gi_time * 1000 ms after the later of its sending and the last response accepted in state 2; else it fails the request and drops the link |
| `RequestTheorems.ConfirmationRestartsNoDeadline` | src/iec104_client_connection.cpp:778-795 | the deadline of the step that ACT_CON opens counts from the ACT_CON if and only if that arrives in the millisecond of the sending; it counts from the sending |
| `RequestTheorems.ResponseRestartsTheDeadline` | src/iec104_client_connection.cpp:703-714 | a response accepted in the second step moves the deadline to gi_time after it |
| `RequestTheorems.SecondStepIsCutShort` | src/iec104_client_connection.cpp:590-632 | this happens: a complete run from the start of the client asks at 0, is confirmed at 5, and reports FAILED less than gi_time after the confirmation |
| `RequestTheorems.DeadlineIsExactBelowOverflow` | src/iec104_client_connection.cpp:598 | a setting honours its deadline at all times if and only if the 32-bit product does not overflow |
| `CycleProofs.AllAddressesAreCovered` | src/iec104_client_connection.cpp:635-663 | in all-CA mode the addresses attempted are always the prefix of the list before the iterator, and a cycle is marked done only after the whole list was attempted, once and in order |
| `CycleProofs.AttemptsNeedAClosedRequest` | src/iec104_client_connection.cpp:590-663 | a round that finds a request open attempts nothing: the number of attempts does not change, even if the round begins a new session's first cycle |
| `CycleProofs.RestartsArePacedExactly` | src/iec104_client_connection.cpp:672-679 | every periodic restart of every run is strictly later than gi_cycle * 1000 ms after the last broadcast sent or all-CA cycle completed, if and only if gi_cycle is at most 2147483, interrogation is off, or there is no address to ask |
| `CycleStarts.CyclesBeginExactly` | src/iec104_client_connection.cpp:579-686 | for every state and event: a cycle begins if and only if a round of a session that may interrogate finds the first cycle missing, or no cycle in progress and a period over, an end of initialization, or a request after FAILED or FINISHED; it clears the end of initialization, reports STARTED and in broadcast mode sends one interrogation if accepted |
| `CycleStarts.EndOfInitializationIsServed` | src/iec104_client_connection.cpp:676-678 | after M_EI_NA_1 the next round with no cycle in progress begins one and sends its broadcast, whatever gi_cycle is |
| `CycleProgress.PeriodsEndOnTime` | src/iec104_client_connection.cpp:672-679 | in every run, for gi_cycle from 1 to 2147483, the first round later than gi_cycle * 1000 ms after the last broadcast sent, all-CA cycle completed or request timed out begins a cycle, and an earlier one only for an end of initialization or a request |
| `CycleProgress.OpenCycleMovesOn` | src/iec104_client_connection.cpp:635-668 | with no request open a round of an all-CA cycle attempts the next address: accepted it opens the request and reports STARTED, refused it reports FAILED and closes the connection; after the list, and in broadcast mode, it ends the cycle |
| `CycleProgress.OpenRequestWaits` | src/iec104_client_connection.cpp:590-632 | an open request whose deadline is not over, or that has none because gi_time is 0, is left alone |
| `CycleProgress.CommandsAreAddressed` | src/iec104_client_connection.cpp:70-76 | in every run clock commands go to the configured, else the default, else the broadcast address; interrogations to the broadcast address (255 for one octet, else 65535) or, in all-CA mode, to addresses of the list |
| `PendingProofs.PendingListIsExact` | src/iec104_client.cpp:255-293 | in every run of one connection the pending list is the station group minus the points answered since the cycle began, and each publication of invalid quality lists exactly the points unanswered then |
| `PendingProofs.ResponsesAreSeen` | src/iec104_client_connection.cpp:703-714 | what counts as answered: an ASDU with cause 20 adds exactly the matching configured points at its addresses, any other ASDU adds nothing |
| `PendingProofs.PendingListIsOrdered` | src/iec104_client.cpp:280-293 | the list is in (CA, IOA) order, and membership is decided by configuration and answers alone |
| `QualityProofs.EndsPublishUnanswered` | src/iec104_client_connection.cpp:597-655 | for every state and event: the unanswered points are published as invalid, once, exactly by a negative ACT_CON for the waiting request, an ACT_TERM for the confirmed one or a failing cause in live status, a deadline that is over, and a refused address - if there are any |
| `QualityProofs.UnansweredArePublished` | src/iec104_client.cpp:255-272 | in every run what such an event publishes is the station group minus the points answered since the cycle began |
| `QualityProofs.QualityUpdatesMean` | src/iec104_client.cpp:255-272 | one update per point, in order, under the tag of the point and with the quality given |
| `QualityProofs.RoundIngestsUnanswered` | src/iec104_client_connection.cpp:597-655 | the quality updates that a round of the thread hands to the ingest callback: one with invalid quality per unanswered point if it fails the cycle, else none |
| `QualityProofs.ReceptionIngestsUnanswered` | src/iec104_client_connection.cpp:774-835 | the quality updates that a received ASDU causes: one with invalid quality per unanswered point if it ends the interrogation, else none |
| `StatusProofs.StatusIsAnnounced` | src/iec104_client.cpp:473-489 | for every state and event of a session: the status it sets, by what happened, and one announcement exactly if it changes |
| `StatusProofs.AnnouncementsAreReported` | src/iec104_client.cpp:369-452 | with a signal configured the south events are the announcements, all and in order; without one there are none |
| `SyncProofs.ClockSyncIsConserved` | src/iec104_client_connection.cpp:533-577 | over every run, reconnections included: commands sent = confirmations accepted + (1 if open); every periodic command follows a confirmation; no cycle starts or asks between STARTDT_CON and the next C_CS_NA_1 |
| `SyncProofs.SyncIsPacedExactly` | src/iec104_client_connection.cpp:544-552 | no periodic command of any run leaves sooner than the period after the last confirmation, if and only if the period is at most 2147483 |
| `SyncProofs.ClockCommandsLeaveExactly` | src/iec104_client_connection.cpp:533-575 | a round sends a clock command if and only if none is open, the session is unanswered or its period is over, and the library accepts; a periodic attempt puts off the next one even if refused |
| `SyncProofs.ClockRepliesMean` | src/iec104_client_connection.cpp:727-772 | any C_CS_NA_1 opens the gate; only a positive confirmation closes the open command and starts the period; "unknown type" leaves it open |
| `SyncProofs.UnansweredSyncBlocksForever` | src/iec104_client_connection.cpp:106-114 | while a command is open and the session has seen no answer, no further clock or interrogation command leaves until some C_CS_NA_1 arrives, over any number of reconnections |
| `SyncProofs.SessionIsBlockedExactly` | src/iec104_client_connection.cpp:533-575 | a session that starts at STARTDT_CON is blocked - no run without a C_CS_NA_1 sends a clock synchronization command - if and only if a command was left open |
| `SyncProofs.SomeSessionIsBlocked` | src/iec104_client_connection.cpp:106-114 | this happens with every setting that enables synchronization: a complete run from the start of the client loses the link with the command open, and the session after the reconnection is blocked |
| `SyncProofs.LostAnswerBlocksLaterSessions` | src/iec104_client_connection.cpp:106-114 | a blocked session asks for no interrogation either |
| `FlagProofs.RequestsCoalesce` | src/iec104_client_connection.cpp:680-684 | times the request flag rose = on-request cycles started + (1 if it is up); a raised flag absorbs further requests and falls only in a round that starts a cycle for it after FAILED or FINISHED; that round asks if and only if the library accepts the broadcast, and in all-CA mode leaves a cycle in progress if and only if there is an address |
| `FlagProofs.FlagRisesExactly` | src/iec104_client.cpp:707-728 | the request flag is up after a request from the north side or a delivered point that went off at a trigger address (single 0, double 1) on the active connection, outside responses; nothing else raises it |
| `FlagProofs.StrandedStepExactly` | src/iec104_client_connection.cpp:670-684 | without periodic cycles, a session with nothing in progress, no request open and a status other than FAILED and FINISHED stays so in a step if and only if the step is none of: STARTDT_CON, end of initialization, a failing C_IC_NA_1 in live status, FAILED or FINISHED reported by another connection |
| `FlagProofs.StrandedRequestsStarve` | src/iec104_client_connection.cpp:670-684 | until one of these events no run of such a session starts a cycle, sends an interrogation or lowers a raised flag |
| `FlagProofs.RefusedBroadcastLosesTheRequest` | src/iec104_client_connection.cpp:480-497 | this happens: a complete run from the start of the client finishes a first interrogation, has the broadcast of a request refused, and ends with the request served, nothing asked for it, and the next request starving |
| `HistoryProofs.StepIsBlind` | src/iec104_client_connection.cpp:526-849 | the histories are records only: no step of the session depends on them |
| `Fleet.EveryConnectionRunsItsSession` | src/iec104_client.cpp:1193-1330 | in every run of a client with any number of connections each connection makes a run of its session, so all session theorems hold for each of them |
| `FleetTheorems.ClientFinishedIsSound` | src/iec104_client_connection.cpp:774-835 | the client reports FINISHED only for a confirmed request of its chosen connection, whatever the other connections and the supervisor do |
| `FleetTheorems.ClientRefusedRequestNeverFinishes` | src/iec104_client_connection.cpp:797-832 | a request refused on one connection of the client is not reported FINISHED while that connection stays active in its session, whatever arrives on any connection |
| `FleetTheorems.ClientPendingIsExact` | src/iec104_client.cpp:255-293 | across all connections and failovers the shared pending list, and every publication of it, is exact and in address order |
| `FleetTheorems.ClientPublishesUnanswered` | src/iec104_client.cpp:255-272 | in every run of the client the event that ends the interrogation on a connection publishes exactly the points no connection has been answered since the latest cycle began, and no other event publishes any |
| `FleetTheorems.EveryConnectionConserves` | src/iec104_client_connection.cpp:526-689 | on every connection of every client run requests, clock synchronization commands and request flags are conserved and the gate is kept |
| `FleetTheorems.OnlyTheActiveConnectionAsks` | src/iec104_client_connection.cpp:125-151 | an interrogation leaves only on the chosen connection |
| `FleetTheorems.NoReconnectionIsOverlooked` | src/iec104_client.cpp:1284-1310 | the timed theorem of the supervisor for full sessions: a link that dropped and re-opened was noticed |
| `Intake.ElementsAddUp` | src/iec104_client.cpp:537-702 | the object-by-object loop amounts to the deliveries, answers, command replies and trigger of the whole ASDU |
| `Intake.PassingMeans` | src/iec104_client_connection.cpp:703-716 | the stages of the received-ASDU handler make up the session's step, and null entries in the map change none of it |
| `Intake.PublishedMeans` | src/iec104_client.cpp:344-358 | what an ASDU publishes is one value per data point, in order, under its own tag |
| `Intake.HandlingEmits` | src/iec104_client.cpp:530-533 | apart from its data points an ASDU publishes, before the connection handles it, at most the event of STARTED becoming IN PROGRESS, as the history says |
| `Client.Client.UpdateGiStatus` | src/iec104_client.cpp:369-489 | the status is the new one, with one south event exactly if it differs and a signal is configured |
| `Client.Client.UpdateConnectionStatus` | src/iec104_client.cpp:369-471 | the status is the new one, with one change event and one south event exactly if it differs |
| `Client.Client.CreateListOfDatapointsInStationGroup` | src/iec104_client.cpp:280-293 | the nested loops build the configured station group in map order, whatever null entries the map holds |
| `Client.Client.UpdateQualityForDataObjectsNotReceivedInGIResponse` | src/iec104_client.cpp:255-272 | one quality update per pending point, in list order, each under its own tag |
| `Client.Client.UpdateQualityForAllDataObjects` | src/iec104_client.cpp:184-212 | one quality update per point in monitoring direction, in map order |
| `Client.Client.SendCommand` | src/iec104_client.cpp:1381-1415 | succeeds exactly if the address is configured for the untimed type, the table has room, the chosen connection is in session and the library accepts; then the table has one more entry, of the type sent, for this common and object address on the chosen connection, timed now; otherwise it is as before |
| `Client.Client.ScheduleGI` | src/iec104_client.cpp:1611-1619 | raises the flag of the chosen connection, or reports that there is none |
| `Client.Client.RemoveFromListOfDatapoints` | src/iec104_client.cpp:274-278 | the loop leaves the list minus the point: every occurrence goes, the others stay in order |
| `Client.Client.TakeAnswer` | src/iec104_client.cpp:555-565 | an answered station-group point leaves the pending list; the second lookup changes no view of the map |
| `Client.Client.Dispatch` | src/iec104_client.cpp:567-663 | the switch yields a data point exactly for forwarded types with a tag, and replies to the found command by its kind |
| `Client.Client.IsAsduTriggerGi` | src/iec104_client.cpp:707-728 | true exactly for a triggering point while a connection is chosen whose flag is down |
| `Client.Client.HandleElements` | src/iec104_client.cpp:537-702 | the loop keeps labels and data points in step and brings about what `Reception` says of the whole ASDU |
| `Client.Client.SendData` | src/iec104_client.cpp:344-358 | every data point is ingested once, in order, under its own tag |
| `Client.Client.HandleASDU` | src/iec104_client.cpp:517-705 | publishes the progress event and the deliveries, replies to the commands of the receiving connection, and takes its session through progress, answers and trigger |
| `Client.Connection.constructor` | src/iec104_client_connection.cpp:31-38 | the initial fields are the initial session and satisfy the invariant |
| `Client.Connection.Activate` | src/iec104_client_connection.cpp:45-67 | STARTDT goes out on an INACTIVE connection and on no other; the invariant is kept |
| `Client.Connection.Connect` | src/iec104_client_connection.cpp:1058-1067 | the connect flag replaces a pending disconnect |
| `Client.Connection.Disonnect` | src/iec104_client_connection.cpp:1047-1056 | the disconnect flag replaces a pending connect |
| `Client.Connection.SetGiRequested` | include/iec104_client_connection.h:47-49 | raising notes a rise exactly if the flag was down; lowering notes nothing |
| `Client.Connection.OnOpened` | src/iec104_client_connection.cpp:100-105 | INACTIVE and connected, no longer connecting |
| `Client.Connection.OnPeerClosed` | src/iec104_client_connection.cpp:94-99 | CLOSED, neither connected nor connecting |
| `Client.Connection.OnStartDtCon` | src/iec104_client_connection.cpp:106-114 | clock synchronization and first cycle start over; request state and open clock command stay |
| `Client.Connection.SendInterrogationCommand` | src/iec104_client_connection.cpp:125-151 | succeeds exactly with a handle, in state ACTIVE, if the library accepts |
| `Client.Connection.CloseConnection` | src/iec104_client_connection.cpp:511-524 | an open handle reports CLOSED; without one nothing happens |
| `Client.Connection.SynchronizeClock` | src/iec104_client_connection.cpp:530-575 | the clock branch of the periodic work does the session's clock step |
| `Client.Connection.StartNewInterrogationCycle` | src/iec104_client_connection.cpp:468-509 | starts the session's cycle: the pending list anew, then broadcast or first address; publishes exactly the status events the history gained |
| `Client.Connection.ContinueInterrogation` | src/iec104_client_connection.cpp:588-668 | waits, gives up at the deadline, asks the next address, or completes the cycle; ingests one invalid-quality update per unanswered point exactly at a deadline or a refused address |
| `Client.Connection.RestartWhenDue` | src/iec104_client_connection.cpp:672-679 | a due cycle, or one asked for by an end of initialization, begins exactly once, clears the end of initialization and in broadcast mode sends one interrogation if accepted; otherwise nothing happens |
| `Client.Connection.RestartOnRequest` | src/iec104_client_connection.cpp:680-684 | lowers the flag only by starting a cycle |
| `Client.Connection.ExecutePeriodicTasks` | src/iec104_client_connection.cpp:526-689 | the whole periodic work does one periodic step of the session and publishes exactly what the history gained: status events, and the unanswered points as invalid |
| `Client.Connection.NoteResponse` | src/iec104_client_connection.cpp:703-714 | a response restarts the deadline exactly in request state 2 |
| `Client.Connection.OnClockReply` | src/iec104_client_connection.cpp:727-772 | the C_CS_NA_1 case does the session's clock reply |
| `Client.Connection.OnInterrogationReply` | src/iec104_client_connection.cpp:774-835 | does the session's reply, by cause and request state; ingests one invalid-quality update per unanswered point exactly if the reply ends the interrogation |
| `Client.Connection.AsduReceived` | src/iec104_client_connection.cpp:692-849 | the handler does one receive step of the session and keeps the invariant; it publishes the progress event, the data points, then exactly what the reply stands for, with the invalid-quality updates exactly if the interrogation ends; known types are exactly those listed |
| `Client.Connection.DestroyHandle` | src/iec104_client_connection.cpp:1110-1122 | the handle is given up and destroyed once, reporting CLOSED if it was open |
| `Client.Connection.PrepareConnection` | src/iec104_client_connection.cpp:851-1027 | a new handle exactly if none is owned and the library can create one |
| `Client.Connection.ServeDisconnect` | src/iec104_client_connection.cpp:1189-1212 | a disconnect request is served once: no handle, not connected, not connecting, one more handle destroyed if there was one; without a request nothing changes |
| `Client.Connection.ConThreadRound` | src/iec104_client_connection.cpp:1098-1220 | one round of the thread does one round of the session, keeps the invariant, and publishes exactly what the history gained, with the invalid-quality updates exactly if the cycle fails |
| `Client.Connection.EndThread` | src/iec104_client_connection.cpp:1222-1243 | every handle created was destroyed |
| `Monitoring.MonitoringThread.FindFirstOpen` | src/iec104_client.cpp:1223-1242 | the search returns the first connection that reports Connected |
| `Monitoring.MonitoringThread.ConnectAll` | src/iec104_client.cpp:1273-1284 | connects exactly the connections that are neither connected nor connecting |
| `Monitoring.MonitoringThread.DropUnneeded` | src/iec104_client.cpp:1296-1308 | disconnects exactly the open connections other than the chosen one that need not stay open |
| `Monitoring.MonitoringThread.WaitForQuality` | src/iec104_client.cpp:1253-1269 | publishes all monitored points as non-topical exactly in the round the supervisor model says |
| `Monitoring.NonTopicalUpdatesMean` | src/iec104_client.cpp:184-212 | the non-topical publication is one update with that quality per monitored point, in address order |
| `Monitoring.MonitoringThread.Round` | src/iec104_client.cpp:1217-1315 | one round of the thread does one round of the supervisor on the connections: without a chosen connection the status is afterwards NOT CONNECTED if none is open and STARTED if one is; publishes the non-topical updates exactly if the round is marked so and the event of a changed status, then does one time-out sweep |

## Left out

- Parsing of the JSON configuration: a parsed list of items, some malformed, is the input of the importer.
- Ascending order of the interrogated addresses after a second import of the exchange configuration: the source appends, so only the added part is ascending.
- TLS set-up, socket parameters and the library's own protocol engine (APCI windows and timers): creating a handle succeeds or fails.
- Encoding of ASDUs, time stamps, quality bits of received values and floating-point contents: values are opaque integers, of which only single and double point states matter.
- The plugin entry points, parameter conversion, audit texts and logging.
- Interleavings inside a thread round or callback, except for the command table's limit and the locks.
- Shutdown beyond the end of the connection thread: object lifetimes when threads and callbacks drop shared pointers.
- updateQualityForAllDataObjectsInStationGroup: no caller in the modelled code.
- Client.Client.HandleASDU: the meaning of the published value beyond type, cause, address and tag is not modelled.
- Client.Client.UpdateQualityForAllDataObjects: takes the list of monitored points from the ordered traversal proved exact in `Exchange`, without repeating its loops.
- PendingProofs.PendingListIsExact: covers one connection without interference; `FleetTheorems.ClientPendingIsExact` covers the client as a whole.
- Monitoring.MonitoringThread.Round: the clock of the quality and time-out checks and the wall clock of the backup timer are one reading each per round.
- The initial invalid-quality update of the monitoring thread, published once before its loop.
