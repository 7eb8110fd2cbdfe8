# Event runtime and camera relay, verified

This project models two parts of the repository in Dafny and proves what they promise.

**The OpenMAX IL client runtime** (`third-party/ilclient/ilclient.c`). A client owns 100 event
nodes, threaded through one spare list and one list per component. A callback drops duplicates,
raises event flags and pushes the event under a lock; waiters scan the lists under the same lock and
block on the flags outside it. Each component also has two queues of buffer headers.

- `IlEvents` holds the values and the effect of each locked section on them; `IlClient` is the
  same code over linked nodes on the heap, every method proved equal to its function in `IlEvents`,
  with the ownership partition of the nodes as class invariant.
- `EventPool` proves what holds over all runs of these sections: conservation, short lists, and when
  the spare list can run empty.
- `WakeUp` is the step-by-step machine of one waiter, the callbacks and everybody else, and proves
  that no wake-up is lost in any interleaving.
- `BufferQueues` has the linked queues, and `BufferWait` the same kind of machine for a caller that
  waits for a buffer while callbacks bring some and other threads splice, take and wait.
  `StateTransition` and `PortIndex` are the remaining algorithms; `Common` holds options and sequences without duplicates, for both parts.

**The camera relay** (`src/server.cpp`, `src/handler.cpp`, with `raspi.cpp`, `client.cpp` and
`remote.cpp` at its ends). Packets have a 12-byte head (command, length, fd) and at most 1400 body
bytes; the server reassembles them from partial reads, answers those with fd 0 and relays the others.

- `Wire` is the format, `Reassembly` the receive callback's parsing, `Endpoints` the blocking loops
  of the programs at the two ends.
- `ServerState` says what each callback and handler does to the server's state; `Server` is the
  server with its channel array and maps changed in place, proved equal to it.
- `ServerRuns` and `ServerPool` prove what every run of the callbacks keeps of the fd map, the
  routing field and the slot pool. `Roster` says what a remote is told when it registers,
  `Registrations` when that is exactly the registered raspis, `Notifications` follows a raspi's
  registration to the START notification, and `Partings` says which raspi is told to stop and which
  packets are dropped.
- `Relay` proves delivery under backpressure for one flow, `Bystanders` that callbacks on other
  connections do not disturb it, and `RelayRuns` both over every run with any number of flows.
  `FlowSetup` shows how a choice opens a flow, and `EndToEnd` that the remote's file is the encoded
  video. `Departures` holds runs in which the server's bookkeeping fails.

## What holds only under a condition

Where the code departs from its intent the code is kept, and the exact condition is proved.

- An error that terminates a command wakes the dual wait on its component unless it is DiskFull or
  MaxFileSize, which are stored without a flag, or the component's error mask drops it
  (`WakeUp.WakeGuaranteedExactly`).
- The handler's assertion on the spare list fails exactly when the lists hold all nodes after the
  duplicates are gone (`EventPool.AssertionFailsIff`).
- The selection loop of the state transition finds a component every time exactly when none is
  listed twice; otherwise it indexes the list with -1 (`StateTransition.Transition`).
- A `prev` carried over from an earlier turn breaks the queue exactly when the head itself matches
  (`BufferQueues.Queue.TakeFirst`). Over all runs no blocking call ever looks with such a `prev` if and
  only if no other thread enables a port or takes buffers out meanwhile (`BufferWait.NeverMisledIff`).
- A buffer-done callback queues its buffer before it raises the flag, but enabling a port queues buffers
  and raises none. No call is ever left blocked with a buffer of its port queued and no flag coming if
  and only if no other thread enables a port or consumes the flag meanwhile
  (`BufferWait.NeverMissedIff`, `SplicedIsMissed`, `StolenIsMissed`).
- Disabling a port with buffers in the application's hands frees only these in the first turn; blocked
  in it, or leaving from it, the call leaves the port's queued buffers queued
  (`BufferQueues.Queue.DisablePortBuffers`).
- The total that `recv_pkg` computes is an int: a length within 12 of 2^32 wraps and passes the
  remote's bound (`Endpoints.RecvPkg`). A packet without a body ends the connection, since a read
  of zero bytes counts as an error (`Endpoints.SendThenReceive`).
- A read request can pass the end of the packet buffer exactly when the length in the head is over
  1400 (`Reassembly.RequestsFitIff`). Freeing a slot resets only the count, so until it is constructed
  again a request is 12 more than the length in the old head, which passes the end after a bad packet
  (`Reassembly.RecvCtx.Free`, `Request`, `OnRead`).
- Freeing a slot a second time, or breaking a bridge whose raspi is gone, breaks the slot pool
  (`ServerPool.FreeKeepsPoolIff`, `ServerPool.CheckBreakKeepsPoolIff`); runs that get there are
  `Departures.SecondFreeBreaksPool` and `Departures.BrokenBridgeRevivesSlot`.
- The START notification is sent without assigning the head fd: it goes out exactly when the raspi's
  send buffer carries its own fd (`Notifications.ChoiceStartsExactlyRegistered`).
- After each of the two answers to a choice the code follows the raspi's map entry. It has been erased
  exactly where a remote chooses itself and its answer fails, or START is sent and fails
  (`Notifications.ChooseDanglesIff`, `Departures.FailedStartDangles`).
- A slot's type is not reset: a connection that never registered counts as a raspi in a fresh slot, or
  one that was last a raspi's. A remote that is answered reads exactly the registered raspis if and
  only if no other connection is in such a slot unregistered and the entry behind the list was zero in
  its send buffer before (`Registrations.RemoteLearnsTheRaspisIff`). The first fails as soon as two
  clients connect (`Departures.UnregisteredIsListed`), the second when a remote registers again after
  a raspi left, its send buffer still holding the first answer (`Roster.SecondRegistrationIsMisread`).
  With eight or more other connections in slots of that type the remote is sent nothing
  (`Roster.RemoteReadsTheRoster`).
- A raspi is told to stop when its remote closes or a send to it fails, but not when reading from the
  remote fails or its packet is too long (`Partings.FailedSendParts`, `BadLengthReleases`). The one
  told is the one the bridge leads to: the raspi just chosen if and only if no bridge was left for
  that fd before, or one to the same raspi (`Partings.ChosenIsToldIff`).
- A dispatch loses the pending bytes of a destination exactly when there are any
  (`Relay.DispatchConservesIffNothingPending`, `Departures.TwoSourcesLosePacket`), and an answer to a
  source that is stopped for backpressure starts it again (`Relay.AnswerToSourceKeepsIff`,
  `Departures.AnswerRestartsStoppedSource`).
- An answer that is sent whole while the connection's write watcher is on goes out again from the send
  buffer, and the notification to stop, which is not written there, continues with whatever that buffer
  holds if the send takes only part of it (`Relay.ResponseConservesIff`).
- The buffer drain follows the links of its own port's buffers only; it ends properly exactly when
  the queue it takes holds no other port's (`BufferQueues.Queue.TakeAll`).

## Model

| member | source | states |
|---|---|---|
| `IlEvents.FirstMatch` | third-party/ilclient/ilclient.c:416-420 | the search stops at the newest matching event, and nowhere if there is none |
| `IlEvents.DedupKeepsNewest` | third-party/ilclient/ilclient.c:1428-1451 | the nested loop keeps exactly the newest occurrence of each (eEvent, nData1, nData2), in order: it equals an independent reference definition |
| `IlEvents.DedupFreesAtMostOne` | third-party/ilclient/ilclient.c:1428-1451 | on a list without duplicates behind its head it frees at most one node, exactly when the head repeats an older event, and the list is at most one longer than its distinct keys |
| `IlEvents.RemoveEventContract` | third-party/ilclient/ilclient.c:406-449 | 0 exactly when some event has the kind asked for and the same nData1 and nData2 as far as they are not ignored: then the newest such event goes back to the spare list and the error or configuration flag is cleared for these two kinds; otherwise -1 and nothing changes |
| `IlEvents.DualScanContract` | third-party/ilclient/ilclient.c:1199-1250 | one scan of the dual wait: the newest event that is this command's completion for this nData2, or an error with nData2 1, is removed with 0 or -1; else such an error of the other component gives -2 and both lists stay as they are; else the caller blocks |
| `IlEvents.CallbackStores` | third-party/ilclient/ilclient.c:1453-1615 | what an accepted callback leaves in the lists: the event in front of the newest of each key, a buffer flag as nData2 1, nothing for an error the mask drops |
| `IlEvents.CallbackRaises` | third-party/ilclient/ilclient.c:1456-1599 | which flag an accepted callback leaves raised for each kind, command and error, on every component, and no other |
| `IlEvents.ChecksContract` | third-party/ilclient/ilclient.c:1122-1149 | an error is found exactly when one is listed, and then only the error flag is cleared; a configuration change exactly when one is listed |
| `IlEvents.ReturnEventsContract` | third-party/ilclient/ilclient.c:682-693 | the list is empty afterwards, all its nodes are spare, and nothing else changes |
| `IlEvents.NotifiesExactlyTheRelated` | third-party/ilclient/ilclient.c:1487-1488 | a terminating error raises the error flag of the related component, and nothing else changes anywhere |
| `EventPool.EveryRunKeepsInv` | third-party/ilclient/ilclient.c:1428-1615 | in every run spare and listed nodes are 100 together, and no list has a duplicate behind its head |
| `EventPool.ListsStayShort` | third-party/ilclient/ilclient.c:1428-1451 | in every run a list is at most one longer than its distinct keys and a callback frees one node or none, and which |
| `EventPool.AssertionFailsIff` | third-party/ilclient/ilclient.c:1453-1454 | the assertion on the spare list fails exactly when the lists hold all nodes after duplicate removal |
| `EventPool.DemandWithinPoolSuffices` | third-party/ilclient/ilclient.c:77-81 | it holds whenever the sum over components of distinct stored keys plus one is at most NUM_EVENTS |
| `EventPool.PoolNeverEmpty` | third-party/ilclient/ilclient.c:1453-1615 | if the components' sets of reportable events (as stored) fit that bound, no run ever fails the assertion |
| `EventPool.BoundIsTight` | third-party/ilclient/ilclient.c:77-81 | one event more than the bound and there is a run that fails it |
| `EventPool.PoolSufficesIff` | third-party/ilclient/ilclient.c:1428-1615 | for any number of components and any non-empty sets of reportable events, no run ever fails the assertion if and only if the sum of distinct events plus one is at most NUM_EVENTS |
| `IlClient.Runtime.constructor` | third-party/ilclient/ilclient.c:174-182 | all 100 nodes are spare, each threaded once |
| `IlClient.ThreadPool` | third-party/ilclient/ilclient.c:175-181 | the loop threads every node of the pool onto the spare list exactly once |
| `IlClient.Runtime.CreateComponent` | third-party/ilclient/ilclient.c:295-315 | a new component has an empty list and no flags, and nothing else changes |
| `IlClient.Runtime.Search` | third-party/ilclient/ilclient.c:413-420 | the walk over the links ends at the newest match with its predecessor at hand |
| `IlClient.Runtime.Unlink` | third-party/ilclient/ilclient.c:428-436 | taking a node out and pushing it on the spare list removes exactly that event and keeps the partition of nodes |
| `IlClient.Runtime.RemoveEvent` | third-party/ilclient/ilclient.c:406-449 | the linked version does what the function says, and keeps nodes partitioned |
| `IlClient.Runtime.ScanDual` | third-party/ilclient/ilclient.c:1199-1250 | so does one locked scan of the dual wait |
| `IlClient.Runtime.CheckError` | third-party/ilclient/ilclient.c:1122-1139 | so does the error check, which clears the error flag when it finds one |
| `IlClient.Runtime.CheckConfig` | third-party/ilclient/ilclient.c:1141-1149 | so does the check for a configuration change |
| `IlClient.Runtime.ReturnEvents` | third-party/ilclient/ilclient.c:682-693 | every node of the component returns to the spare list |
| `IlClient.Runtime.DropLater` | third-party/ilclient/ilclient.c:1431-1448 | the inner loop drops exactly the later occurrences of one event's key |
| `IlClient.Runtime.DropDuplicates` | third-party/ilclient/ilclient.c:1428-1451 | the nested loop over redirected links leaves the list its function says and frees the rest |
| `IlClient.Runtime.NotifyRelated` | third-party/ilclient/ilclient.c:1487-1488 | only a terminating error raises the error flag of the related component |
| `IlClient.Runtime.Insert` | third-party/ilclient/ilclient.c:1601-1615 | the first spare node becomes the head of the list, filled in |
| `IlClient.Runtime.EventHandler` | third-party/ilclient/ilclient.c:1423-1616 | the whole locked part of the handler equals its function, or stops at the assertion with only the duplicates gone |
| `IlClient.NodesConserved` | third-party/ilclient/ilclient.c:77-81 | in every valid client state the linked nodes add up to NUM_EVENTS |
| `WakeUp.NoLostWakeUp` | third-party/ilclient/ilclient.c:1191-1256 | in every interleaving, a waiter about to block or blocked with a wanted alert in its list, or a terminating error in the other's, has a flag of its mask set |
| `WakeUp.NoLostErrorOrChange` | third-party/ilclient/ilclient.c:1118-1165 | wait_for_event with errors or configuration changes in its mask: in every interleaving, when it is about to block or blocked and any such flagged event is in the list, wanted or not, that flag is set |
| `WakeUp.CallbackIsHandle` | third-party/ilclient/ilclient.c:1423-1616 | the callback's single steps make up the handler's locked section, and get stuck exactly where its assertion fails |
| `WakeUp.DualReturns` | third-party/ilclient/ilclient.c:1194-1258 | a blocked dual wait with such an event present returns in five steps of its own, with the answer the lists call for |
| `WakeUp.SingleReturns` | third-party/ilclient/ilclient.c:1118-1165 | likewise wait_for_event: it takes the event or reports the error |
| `WakeUp.ReturnsAccountForRemovals` | third-party/ilclient/ilclient.c:1111-1259 | over every run 0 of the dual wait means that the completion of its command and nData2 was taken, or one SameState error, 0 of wait_for_event one event it asked for, -1 of the dual wait one other terminating error, and all other results nothing; `related` is reset when a dual wait has returned |
| `WakeUp.RemovalsAreNewest` | third-party/ilclient/ilclient.c:1111-1259 | over every run, whatever a wait takes is the newest event it wants at that moment, and nothing else of the list changes |
| `WakeUp.UnflaggedErrorIsMissed` | third-party/ilclient/ilclient.c:1490-1553 | a run in which a terminating DiskFull or MaxFileSize, or an error the mask drops, leaves the waiter blocked without a flag |
| `WakeUp.WakeGuaranteedExactly` | third-party/ilclient/ilclient.c:1490-1571 | a dual wait is never left blocked after a terminating error was reported, if and only if the error is neither of these two and not dropped by the component's mask |
| `WakeUp.CompletionAlwaysWakes` | third-party/ilclient/ilclient.c:1180-1256 | once the completion of the command and port or state a dual wait is for has been reported, it is never left blocked in any interleaving: the error flag or the state-changed, port-disabled or port-enabled flag of that command is raised |
| `WakeUp.SingleAnswers` | third-party/ilclient/ilclient.c:1117-1163 | wait_for_event by itself: 0 if the event is listed; else -2 if errors are asked for and one is listed, clearing the error flag; else -3 if configuration changes are and one is listed; else it blocks |
| `WakeUp.WokenAnswers` | third-party/ilclient/ilclient.c:1154-1163 | what it does with the flags that wake it: -2 for the error flag, 0 or -3 for the configuration flag, and it looks again for any other |
| `WakeUp.SingleCodes` | third-party/ilclient/ilclient.c:1103-1108 | in any interleaving -1 comes only from a timeout, -2 from a listed error or the error flag, -3 from a last look that fails, 0 from a listed event |
| `WakeUp.DualAnswers` | third-party/ilclient/ilclient.c:1180-1258 | the dual wait by itself: other commands are refused with -1, else it answers what its scan finds with the relation dissolved, or blocks related |
| `WakeUp.DualWoken` | third-party/ilclient/ilclient.c:1180-1253 | it wakes on the error flag and the command's own flag, exactly, and consumes these two |
| `BufferQueues.AppendEnqueues` | third-party/ilclient/ilclient.c:1662-1675 | appending enqueues on the buffer's own port and touches no other port's order |
| `BufferQueues.TakeDequeues` | third-party/ilclient/ilclient.c:1290-1305 | taking the first match dequeues its port's oldest buffer, leaves every other port's order, and loses no buffer |
| `BufferQueues.Queue.Append` | third-party/ilclient/ilclient.c:1718-1731 | the walk to the tail appends exactly one buffer; one that is still queued instead becomes the tail where it is |
| `BufferQueues.AppendedShape` | third-party/ilclient/ilclient.c:1720-1730 | the buffers in front stay in order, the new one comes once, and the queue grows by one if and only if it was not queued |
| `BufferQueues.Queue.TakeFirst` | third-party/ilclient/ilclient.c:1289-1306 | one turn takes the port's oldest buffer out unless the carried-over `prev` is stale, and then hands it out, leaves it queued and cuts off all others |
| `BufferQueues.Queue.NextTurn` | third-party/ilclient/ilclient.c:1288-1311 | a retry after appends never has a stale `prev` and takes the oldest buffer of old and new ones |
| `BufferQueues.Queue.GetBuffer` | third-party/ilclient/ilclient.c:1283-1314 | the blocking call returns the port's oldest buffer at the first turn there is one, all others staying in order |
| `BufferWait.NoBufferMissed` | third-party/ilclient/ilclient.c:1718-1733 | in every interleaving with callbacks and other threads, a caller about to block or blocked while a buffer of its port is queued has the flag set, or a callback about to set it, unless since it last looked buffers were spliced in or the flag was consumed |
| `BufferWait.NeverMisledUnless` | third-party/ilclient/ilclient.c:1285-1306 | in every interleaving, a caller about to look has a stale `prev` only if buffers were taken out during the call or spliced in since it last looked |
| `BufferWait.SplicedIsMissed` | third-party/ilclient/ilclient.c:853-864 | a run in which a thread stays blocked without a flag coming, with its buffer queued by another that enables the port |
| `BufferWait.StolenIsMissed` | third-party/ilclient/ilclient.c:1308-1309 | a run in which it does because another thread consumed the flag of its buffer |
| `BufferWait.SplicedMisleads` | third-party/ilclient/ilclient.c:853-864 | a run in which a splice makes the carried-over `prev` stale |
| `BufferWait.TakenMisleads` | third-party/ilclient/ilclient.c:1285-1301 | a run in which another thread's taking the buffer passed over does |
| `BufferWait.NeverMissedIff` | third-party/ilclient/ilclient.c:1283-1314 | no call is ever left blocked with a buffer of its port queued and no flag coming, over all runs, if and only if it does not block or nobody splices buffers in or consumes the flag |
| `BufferWait.NeverMisledIff` | third-party/ilclient/ilclient.c:1283-1314 | no call ever looks with a stale `prev`, over all runs, if and only if it does not block or nobody splices buffers in or takes any out |
| `BufferWait.BlockedCallReturns` | third-party/ilclient/ilclient.c:1288-1313 | with the flag set it returns its port's oldest buffer in four steps of its own, if there is one, and else blocks again; the buffer is taken out and the others stay, unless `prev` is stale: then it stays at the head and the others are cut off |
| `BufferQueues.Queue.EnablePortBuffers` | third-party/ilclient/ilclient.c:828-864 | the queue becomes the new buffers in allocation order followed by the old queue, up to the first allocation failure |
| `BufferQueues.Queue.TakeAll` | third-party/ilclient/ilclient.c:929-953 | it ends if and only if the queue holds this port's buffers only, and then all of them are on the drain list, each once, and none stays queued |
| `BufferQueues.Queue.Round` | third-party/ilclient/ilclient.c:925-973 | one round frees what was held, or else the whole queue, and nothing twice; it goes astray exactly when it takes a queue with another port's buffer |
| `BufferQueues.Queue.DisablePortBuffers` | third-party/ilclient/ilclient.c:894-989 | freed and still queued buffers are exactly the held, queued and returned ones, each once; on normal exit at least nBufferCountActual are freed, and exactly so many with none queued if there are no more; what stays queued on every exit: blocked, it is the queue it began with if that is its first turn and the application held buffers, and else nothing; it goes astray only with another port's buffers in the queue |
| `StateTransition.FindMin` | third-party/ilclient/ilclient.c:482-485 | the inner loop finds the smallest remaining key, the first of equals, and -1 exactly when none remains |
| `StateTransition.KeyBits` | third-party/ilclient/ilclient.c:477 | a key is one more than bits 13 to 20 of the random number |
| `StateTransition.Transition` | third-party/ilclient/ilclient.c:476-501 | the selection succeeds exactly for distinct components, and then commands each once, by ascending key with ties by position, before waiting for any |
| `PortIndex.Found` | third-party/ilclient/ilclient.c:1794-1811 | a port of the direction reached in the loops is the candidate with as many candidates before it as were counted down |
| `PortIndex.CandidatesAreThese` | third-party/ilclient/ilclient.c:1766-1811 | the candidates are the ports of the direction in the ranges of the selected domains, and each has as many of them before it, Video before Audio before Image before Other, as its position says |
| `PortIndex.GetPortIndex` | third-party/ilclient/ilclient.c:1776-1815 | the decrementing loop returns the port of the asked direction in a selected range that has exactly `index` of these before it in table order, and -1 exactly when there are not that many |
| `Wire.EncodeDecode` | src/protocol.h:82-109 | what is encoded is a frame and decodes to the same packet |
| `Wire.DecodeEncode` | src/protocol.h:82-109 | what decodes encodes to the same bytes |
| `Wire.LittleEndian` | src/protocol.h:82-87 | fields go out and come in with the lowest byte first |
| `Reassembly.RequestsStayInside` | src/server.cpp:145-146 | inside a packet every read request is positive, ends inside the packet and fits the buffer, also while the length has only partly arrived |
| `Reassembly.RequestsFitIff` | src/server.cpp:145-146 | all requests while a head is being read fit the buffer if and only if its length is at most 1400 |
| `Reassembly.FeedInside` | src/server.cpp:170-207 | a read completes the packet exactly when it reaches its end |
| `Reassembly.StepFollows` | src/server.cpp:145-207 | each read keeps: handed-on packets are the first of the stream, the buffer the start of the next |
| `Reassembly.ReassemblesAnyChunking` | src/server.cpp:145-207 | for every packet stream and every split into reads within the requests, the packets handed on are the parse of the stream and nothing depends on the split |
| `Reassembly.RecvCtx.OnRead` | src/server.cpp:170-207 | the callback over its zero-filled buffer does what the parse step says, for every read that does not pass the buffer's end |
| `Reassembly.RecvCtx.Request` | src/server.cpp:145-146 | the size asked for, computed from a partly filled head, and from whatever a freed slot holds |
| `Reassembly.RecvCtx.Free` | src/server.cpp:334-336 | the count is reset and the bytes stay |
| `Reassembly.RecvCtx.Construct` | src/server.cpp:206-207 | after a packet the buffer is empty and zero again |
| `Endpoints.SendPkg` | src/raspi.cpp:138-163 | whatever each send takes, success means exactly the packet went out, failure a proper prefix |
| `Endpoints.ReadUpTo` | src/raspi.cpp:171-189 | the read loop takes exactly what was asked for, however it arrives |
| `Endpoints.RecvPkg` | src/remote.cpp:51-107 | it returns exactly the first packet of the stream and leaves the rest; which lengths are refused, and which wrap around the bound |
| `Endpoints.SendThenReceive` | src/client.cpp:20-96 | what send_pkg sends, recv_pkg receives, the following bytes untouched, exactly for packets with a body |
| `Endpoints.PiecesJoin` | src/raspi.cpp:369-387 | the pieces of an encoded frame are its bytes |
| `Endpoints.PieceCount` | src/raspi.cpp:374-387 | a frame of n bytes gives ceil(n/1400) packets |
| `Endpoints.FramesDecode` | src/raspi.cpp:370-387 | every packet of a camera stream is a frame with command 3 for the remote whose body is its non-empty piece |
| `Endpoints.SendFrame` | src/raspi.cpp:368-396 | the loop over one reused packet puts exactly the frame's packets on the wire, or a prefix if a send fails |
| `Endpoints.Camera` | src/raspi.cpp:232-416 | so does the thread over all encoded frames |
| `Endpoints.PayloadOfFrames` | src/remote.cpp:222-227 | the bodies of a camera stream's packets are its pieces |
| `Endpoints.Record` | src/remote.cpp:208-229 | the remote appends exactly the bodies of the first packets of what it is sent, all of them if they have bodies within bounds, and counts them |
| `ServerState.FirstFree` | src/server.cpp:306-321 | the slot handed out is the first one not in use |
| `ServerRuns.EveryRunKeepsFdMap` | src/server.cpp:95-97 | in every state of every run each entry leads to an ACTIVE slot with that fd and its own index, so the map is injective, whatever fails and whichever fds are used again; a run ends where a read or a resumed send leaves its buffer, or a null pointer or an erased map entry is followed |
| `ServerRuns.DispatchDanglesIff` | src/handler.cpp:96-98 | dispatch follows an erased map entry exactly where the destination is bridged to itself and both its sends fail |
| `ServerRuns.RegisterStamps` | src/handler.cpp:131-166 | a registration leaves the channel's own fd in its send buffer; no other buffer's head fd changes |
| `ServerRuns.EveryRunIsRouted` | src/handler.cpp:82-148 | in every run the head fd in a mapped channel's send buffer is 0 or its own |
| `ServerRuns.StampLasts` | src/handler.cpp:82-257 | once it is its own it stays so while the connection stays in the map |
| `ServerPool.AcceptKeepsPool` | src/server.cpp:95-97 | accept keeps ACTIVE slots and map values the same when the fd is new |
| `ServerPool.AcceptOpens` | src/server.cpp:95-103 | a new connection gets the first free slot with empty, zero buffers and only its read watcher on; an fd still in the map keeps its old entry |
| `ServerPool.FreeKeepsPoolIff` | src/server.cpp:326-347 | free_channel keeps them the same if and only if the slot is in use or its old fd is not mapped |
| `ServerPool.CheckBreakKeepsPoolIff` | src/server.cpp:120-138 | check_break_fd does if and only if a bridge's other end is in use and the notification does not fail |
| `ServerPool.EveryCleanRunKeepsPool` | src/server.cpp:72-387 | in every run whose accepts get new fds and whose steps free and notify only channels in use, the ACTIVE slots are exactly the map's values |
| `Notifications.ChoiceStartsExactlyRegistered` | src/handler.cpp:223-257 | whatever its two sends take, a choice sends the remote its answer and sends START with the remote's fd to the raspi if and only if its buffer carries its own fd (or it chose itself); nobody else is sent anything |
| `Notifications.StartedIff` | src/handler.cpp:251-255 | a send that takes START whole adds it if and only if the raspi's buffer carries its own fd (or it chose itself) |
| `Notifications.ChooseDanglesIff` | src/handler.cpp:242-257 | a choice follows an erased map entry exactly where a remote chooses itself and its answer fails, or START is sent to the raspi and fails |
| `Notifications.StartedPacketsReachTheRemote` | src/raspi.cpp:498-503 | the fd the raspi takes from START and stamps on its packets makes the server relay them to that remote: what the send takes is what that remote, and only it, is sent |
| `Notifications.RegistrationStamps` | src/server.cpp:192-196 | reading a registration of a mapped channel, answered without error, leaves its own fd in its send buffer and keeps map and routing |
| `Notifications.RegisteredIsStarted` | src/handler.cpp:131-257 | in every run, a connection stamped by its registration that stays in the map is started by every later choice of it, as far as the send takes |
| `Roster.CollectsTheRaspis` | src/handler.cpp:150-163 | the loop over the fd map collects exactly the connections in slots of type RASPI, in increasing order of fd |
| `Roster.PutFdsWrites` | src/handler.cpp:155-156 | writing the fds into the answer changes these entries and no others |
| `Roster.RemoteReadsTheRoster` | src/handler.cpp:141-166 | with eight or more other connections in slots of type RASPI nobody is sent anything; with fewer the remote is sent one answer and nobody else anything, and out of that its loop (remote.cpp:160-165) reads exactly these if and only if the entry behind them was zero in the send buffer before |
| `Roster.RaspiIsAnswered` | src/handler.cpp:131-140 | a raspi that registers is sent one answer of 48 bytes without error, as far as the send takes, and nobody else is sent anything |
| `Roster.AnswerBytes` | src/handler.cpp:135-139 | such an answer begins with command 2, length 36, the fd and result 0, byte for byte |
| `Registrations.EveryRunKeepsRegistrations` | src/handler.cpp:131-143 | in every run a registered connection stays in a slot of the type it last registered |
| `Registrations.RemoteLearnsTheRaspisIff` | src/handler.cpp:141-166 | in every run, an answered remote reads exactly the other registered raspis if and only if no other connection is unregistered in a slot of type RASPI and the entry behind the list was zero |
| `Roster.SecondRegistrationIsMisread` | src/handler.cpp:141-166 | a remote that was told of some connections and registers again when there are fewer, with the first answer still unchanged in its send buffer, reads a wrong list |
| `Roster.StaleEntryIsRead` | src/handler.cpp:150-165 | a buffer in which that happens: the fd 5 is still read when nothing is listed |
| `Relay.DispatchConservesIffNothingPending` | src/handler.cpp:82-114 | sent plus unsent grows by exactly the packet if and only if nothing was pending for the destination |
| `Relay.ResponseConservesIff` | src/handler.cpp:32-56 | an answer or notification is added to what goes out if and only if it is sent whole while the write watcher is off, or in part and the send buffer holds the same from there on |
| `Relay.WaitsAgain` | src/server.cpp:154-192 | where there is nothing to read, no room to write or a packet not complete, only the watcher is started again |
| `Relay.ReadKeeps` | src/server.cpp:170-207 | reading a flow's source keeps the backpressure invariant and conservation, and touches nothing but the flow |
| `Relay.DrainKeeps` | src/server.cpp:350-386 | so does a resumed send |
| `Relay.FullDrainReopens` | src/server.cpp:378-385 | once the destination takes what is pending, nothing is and its source is read again |
| `Relay.FlushChanges` | src/server.cpp:350-386 | what a resumed send changes, field by field, and that it has a source to restart |
| `RelayRuns.EveryRunRelays` | src/handler.cpp:82-114 | in every state of every run, for every flow, whatever happens on other connections: unsent bytes iff the source is stopped, with the write watcher on and pSrcChannel set; sent, unsent and buffered bytes are what was read, in order |
| `Relay.FlowStarts` | src/handler.cpp:82-114 | a flow is in that state whenever both ends are live, nothing is pending and the source is between packets |
| `Relay.ConnectIsElsewhere` | src/server.cpp:95-103 | accepting a connection leaves every flow alone |
| `Relay.AnswerToSourceKeepsIff` | src/handler.cpp:22-58 | an answer to a flow's source keeps the flow if and only if its send does not fail and, if it goes out whole, the source is not stopped |
| `Bystanders.ResponseIsElsewhere` | src/handler.cpp:22-58 | an answer to a connection outside a flow leaves the flow alone, whatever its send returns |
| `Bystanders.RegisterIsElsewhere` | src/handler.cpp:119-174 | so does a registration |
| `Bystanders.ChooseIsElsewhere` | src/handler.cpp:223-260 | so does a choice of a raspi outside the flow |
| `Bystanders.DispatchIsElsewhere` | src/handler.cpp:60-116 | so does relaying between two other connections |
| `Bystanders.CheckBreakIsElsewhere` | src/server.cpp:120-138 | so does breaking a bridge whose other end is outside |
| `Bystanders.StepIsElsewhere` | src/server.cpp:141-387 | so does every callback that, by the state before it, does not concern the flow: accepts, reads of any kind, requests, relays, resumed sends, frees |
| `FlowSetup.ChoiceOpensFlow` | src/handler.cpp:242-257 | the read of a choice of a registered raspi between packets opens a flow to the remote, starting behind the answer to it |
| `FlowSetup.ChoiceAddsAFlow` | src/handler.cpp:242-257 | it does so beside any number of other flows, which it leaves as they are |
| `Departures.TwoSourcesLosePacket` | src/handler.cpp:82-99 | a run in which a second source's packet overwrites the pending one of the first |
| `Departures.AnswerRestartsStoppedSource` | src/handler.cpp:51-56 | a run in which the answer to a choice restarts a source stopped for its destination, whose next packet overwrites the pending one |
| `Departures.SecondFreeBreaksPool` | src/server.cpp:326-385 | a run in which a drain restarts the watcher of a freed slot, and its second free takes another connection out of the map |
| `Departures.BrokenBridgeRevivesSlot` | src/server.cpp:120-138 | a run in which a raspi closes, then its remote, and the raspi's slot is ACTIVE again with no entry leading to it |
| `Departures.FailedStartDangles` | src/handler.cpp:251-257 | a run that ends in an ordinary choice whose START fails and whose map entry is then followed |
| `Departures.UnregisteredIsListed` | src/handler.cpp:150-163 | a run of two connections that register nothing, after which the second would be told of the first and could choose it without effect |
| `Partings.CloseTellsTheBridged` | src/server.cpp:120-152 | when a connection closes, its raspi is sent the notification to stop if and only if a remote's bridge leads to another connection that is still there; nobody else is sent anything; the bridge is gone, the fd unmapped, and the slot released unless the bridge led to it |
| `Partings.BreakTells` | src/server.cpp:120-138 | breaking a remote's bridge sends its raspi the notification to stop if that is still there, nobody else anything, and erases the bridge |
| `Partings.FailedSendParts` | src/server.cpp:364-368 | a resumed send that fails: the raspi of a remote's bridge is told to stop if it is still there, nobody else is sent anything, the bridge is gone, slot and fd are released |
| `Partings.FailedRelayParts` | src/handler.cpp:96-98 | the same for the destination of a relayed packet whose send fails |
| `Partings.NotificationBytes` | src/protocol.h:27-36 | the three notifications byte for byte |
| `Partings.BadLengthReleases` | src/server.cpp:176-182 | a head that announces more than 1400 bytes releases its slot and fd, and nothing else changes |
| `Partings.ErrorTellsNobody` | src/server.cpp:161-164 | so does a read error, and nobody is sent anything |
| `Partings.RefusedIsDropped` | src/handler.cpp:226-240 | a packet with another command, another client type, or for or from a connection that is not there changes nothing and sends nothing to anybody |
| `Partings.ChosenIsToldIff` | src/handler.cpp:257 | a raspi just chosen is the one told if and only if no bridge was left for that fd, or one to the same raspi |
| `EndToEnd.HeardIsPrefix` | src/remote.cpp:209-217 | what a remote has read of a flow is a prefix of its packet stream, and all of it at the end |
| `EndToEnd.EveryRunRecordsTheVideo` | src/raspi.cpp:368-396 | in every state of every run the remote's file is a prefix of the encoded video, byte for byte, and the whole of it once everything is read and sent; all its packets are accepted |
| `EndToEnd.ChosenVideoIsRecorded` | src/remote.cpp:184-229 | the same from the step in which the server reads a remote's choice, beside any other flows, with the file starting behind the answer |
| `Server.Server.constructor` | src/server.cpp:306-316 | all slots are free and both maps empty |
| `Server.Server.GetFreeChannel` | src/server.cpp:306-324 | the loop takes the first free slot, freshly constructed, or none |
| `Server.Server.AcceptCb` | src/server.cpp:95-103 | the callback in place does what the state function says, and when it has no slot |
| `Server.Server.Free` | src/server.cpp:326-347 | the slot its idx names is released and its fd unmapped, nothing else |
| `Server.Server.Respond` | src/handler.cpp:22-58 | response in place, for each result of send |
| `Server.Server.CheckBreakFd` | src/server.cpp:120-138 | check_break_fd in place |
| `Server.Server.Relay` | src/handler.cpp:60-116 | dispatch in place, for each result of send; it fails exactly where the destination's map entry is gone |
| `Server.Server.HandleRegisterClientReq` | src/handler.cpp:119-174 | the registration in place, for both client types |
| `Server.Server.ListRaspis` | src/handler.cpp:150-163 | the loop over the fd map lists the ACTIVE raspis in key order and stops at the eighth |
| `Server.Server.HandleChooseServerReq` | src/handler.cpp:223-260 | the choice in place, both notifications and the bridge; it fails exactly where the raspi's map entry is gone |
| `Server.Server.ServerRecvCb` | src/server.cpp:141-209 | the receive callback in place, for each result of recv; it fails exactly where the bytes pass the buffer's end or an erased map entry is followed |
| `Server.Server.ServerSendCb` | src/server.cpp:350-387 | the send callback in place; it fails exactly when it completes a packet without a source |

## Left out

- IlClient.Runtime.EventHandler: events, commands and error codes on which the code runs into `vc_assert(0)` are its callers' obligation (`Expected`); the client's own callbacks, called after the lock is released, and `pEventData`, which is only stored, are not modelled.
- WakeUp.NoLostWakeUp: for one waiter that is the only consumer of its component's events and flags; several waiters on one component steal each other's flags.
- StateTransition.Transition: the setting and clearing of the unpopulated bit in the error masks around the transition, and the clearing of the error flag before each command, are not part of it; a wait is one entry of the log.
- BufferQueues.Queue.TakeAll: with another port's buffer in the queue the code steps to the address of the link field instead of the link (line 951); what it does from there has no meaning in the model, and the method ends.
- BufferQueues.Queue.DisablePortBuffers: the parameters read from the component are arguments, error and completion found after a block are given by `wakes`; the wait for the command at the end (line 991) is the dual wait of `WakeUp`.
- BufferWait.NoBufferMissed: one call of one caller; what the other threads do is given by their effect on the queue and the flag, and a header freed while it is the caller's `prev` is not followed.
- BufferQueues.Queue.EnablePortBuffers: the failure path after the splice, which disables the port again, is not part of it.
- Event flags are sets of named bits and OpenMAX codes are constructors, since IL/OMX_Broadcom.h, which numbers them, is not in the repository; fields are unbounded numbers.
- Reassembly.RecvCtx.OnRead: what a read that passes the end of the packet buffer overwrites behind it is not modelled; the method ends there, and so does every run of the server.
- ServerState.Receive: sizes are computed as on a platform with a 64-bit size_t; a receive buffer is the bytes received, the stale bytes of a freed channel are not kept, so a run in which a freed slot is read again (`Departures.SecondFreeBreaksPool`) goes on with a request of 12 bytes where the code asks for 12 more than the length in the old head (`Reassembly.RecvCtx.Request`), which after a bad packet is over 1412.
- Endpoints.SendPkg: `send_pkg` of `remote.cpp` passes the full length on every retry (line 28) and is not modelled.
- Endpoints.Record: every write to the file is taken to be whole; the code logs a short one (remote.cpp:222-226) and goes on.
- Endpoints.Camera: one camera thread with one remote fd; the encoder's header loop (raspi.cpp:323-351) copies from the wrong offset and is not modelled, and capture, conversion and encoding are inputs.
- RelayRuns.EveryRunRelays: under the stated hypotheses: one source per destination and the reverse, no channel both, no hard send error on a flow, no answer to a flow's channel, and on other connections no callback that frees, restarts or sends to a flow's channel (`Bystanders.Elsewhere`, told by the state before it).
- ServerRuns.EveryRunKeepsFdMap: a run ends where the code follows a null pointer (no free slot, or a send completed without a source) or a map entry it has erased, where a read passes the end of the receive buffer, and where a resumed send has already sent more than its packet holds; what the program does then has no meaning in the model.
- In `Server.Server.ServerRecvCb` the results of recv and of the sends it causes are arguments; sockets, libev's loop, fcntl, signals and logging are not modelled.
- `ilcore.c`, the tick helpers, callback setters, tunnels, and the device and option code: easy members or plumbing.
- `raspi_ev.cpp` is not built, and `ev.h` and the camkit headers declare libraries whose code is not in the repository.
