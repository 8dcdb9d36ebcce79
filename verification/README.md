# Verified model of the kai server core

kai is a small MUD server. A portal process owns the players' sockets and talks to the game over one link; the
game keeps a `Connection` object per player, runs a tick ten times a second, and keeps time for periodic game
systems. This project models the parts of kai that carry state and arithmetic and proves what they promise.

- **Connections** (`Lifecycle`, `LifecycleSafety`, `LifecycleTraces`, `LifecycleCapabilities`, `LifecycleFrames`,
  `ChannelOverflow`, `Net`, `OutboundLink`, `PlayViews`). The link reader creates, updates and marks connections and pushes frames into
  a channel of 200 per connection; code in the game closes connections and sends messages; the tick sweeps the dead,
  welcomes the pending and drains the channels. `Lifecycle` is a step system over all of this, one event at a time;
  `LifecycleSafety` holds the invariant of every run; `LifecycleTraces` and `LifecycleCapabilities` state what runs do
  to members, frames and capabilities; `LifecycleFrames` states the effect of each event by the keys of the JSON and
  the fields of the state; `ChannelOverflow` is one run in particular; `Net` has the objects, with the
  loops and erasures of the C++ code, each proved to refine a step. `OutboundLink` is the bounded channel to the
  portal and its writer, `PlayViews` the groups of connections that share a play view.
- **Time** (`Scheduler`, `GameLoop`). The heartbeat of the game systems, what the main loop measures and feeds
  them, and the save timer.
- **Selection by abbreviation** (`PartialMatch`, with byte order in `Text`).
- **Stores and codecs** (`Attributes`, `Capabilities`, `Messages`, over `JsonValues`).

`dafny verify dfyconfig.toml` checks everything.

## How the model reads the program

**One step at a time.** In single-threaded mode (`src/comm.cpp:420-422`) a coroutine runs until it suspends.
`processConnections` contains no `co_await`, and `createUpdateClient` has no suspension point inside it, so a
handled frame and a whole tick are single steps. The one place where the reader stops half-way,
`async_send` on a full channel (`src/net.cpp:146`), is state: `Blocked`, and a `waiting` frame at the connection.
That send completes when the drain takes the first frame out of the channel, and is cancelled when the link ends.
It is also cancelled when the object is destroyed, which takes the reader to the next frame (`src/net.cpp:147`).
The sweep erases the owner in the map, but whether other owners are left is outside the model; so this is an event of
its own, `SendAbandoned`, possible at any time once the object is no longer connected.

**Incarnations.** Ids can be used again, and stale ids stay in the pending set. Every object created gets a
number `inc` of its own, and the history of a run records who was welcomed, got a heartbeat or was cleaned up.

**What the environment decides** is a parameter and therefore arbitrary: the frames that arrive, when the link
comes and goes, whether a write succeeds, the order in which an unordered map is walked (`order`), and what the
code behind a connection's parser does at each call (`react`: any closes and sends, for any connection). A
connection without a parser is one whose `react` answers nothing; the calls recorded are then those it would get. In `GameLoop` a `Round` gives the clock
readings, the activity flags of the play views and the requests to stop, during the work or during the wait, or to
save; any behaviour of the clock that goes forward with a timer that does not wake early is covered.

**Exceptions.** A throw in the reader ends the reader. A throw during a tick ends the process through
`shutdown_game`, so it ends the run (`exited`). `deserialize` methods return `ok = false` and keep what they had
assigned before the throw. Reading a missing key of a `const` JSON value is undefined in C++ (the `id` and the
`capabilities` of an announced client, and `color` below); the model lets it throw. The conversion of a stored value
(`include/kai/structs.h:82`) is a parameter that may fail for any value; with the right operand of an assignment
evaluated first, as since C++17, a failing conversion throws before anything is stored for its entry.

**Values.** Strings are sequences of characters compared by character code; letters change case in ASCII only.
Integers read from JSON wrap to the width of their target (16, 32 or 64 bits). Time is real-valued.

## What turned out different from what one would expect

- `ProtocolCapabilities::deserialize` tests the key `colorType` and reads the key `color`, so an object with a
  colour does not survive its own serialization: loading it reads a missing key, which C++ leaves undefined and the
  model lets throw (`ReloadThrowsIff`, `RoundTripIff`, `ColouredObjectDoesNotReload`).
- `AttributeManager` can store an empty category: loading an object whose first entry to fail is one that converts
  but has no name, such as an element of an array, creates the category and then throws (`NoEmptyAfterLoadIff`,
  `NeverEmptyIff`, `ArrayLeavesEmptyCategory`).
- A frame that arrives while 200 others wait for the next tick is lost if the link ends before that tick. An
  object is routed all that arrived for it if and only if no such send was cancelled (`NothingLostIff`,
  `BurstLosesFrame`).
- `partialMatch` can prefer an abbreviation to an exact name when keys mix cases: "ab" among "ab" and "ABC"
  selects "ABC". Exact names win for all search texts if and only if, whenever a key extends another apart from case,
  some key equal to the shorter one apart from case comes before it in byte order
  (`ExactWinsIffExactKeyComesFirst`); keys without capitals always meet this.
- A game stopped by a signal that arrives while the loop waits for its timer leaves without the save at shutdown,
  unless one is due or was asked for earlier: the flag is looked at before the wait only (`RoundSavesIff`,
  `SignalEndsWithoutSave`).
- A connection that the game logs off stays a member of its play view's group, so the sweep leaves the group
  non-empty and its end is not reported (`SweepEndsGroupOnce`, `LoggedOffMemberStays`).
- `processConnections` keeps stale ids in the pending set; they can never cause a second welcome or skip one.

## Model

| member | source | states |
|---|---|---|
| LifecycleSafety.EveryRunIsSafe | src/net.cpp:64-166 | Over every interleaving of frames, calls, writes, link changes, ticks and the destruction of removed connections: a connected id is pending exactly while its current object is unwelcomed, no object is welcomed twice, none gets a heartbeat before its welcome or anything after its cleanup, routed frames are handled ++ buffer ++ waiting with at most 200 buffered, and a suspended reader waits for a connected object, exactly the one where a frame waits, or for one that has been cleaned up |
| LifecycleSafety.StepIsSafe | src/net.cpp:91-166 | One event of any kind keeps that invariant |
| LifecycleSafety.TickIsSafe | src/comm.cpp:118-147 | One whole tick keeps it, whatever the parsers do and however the dead are ordered |
| LifecycleSafety.TickIsRecorded | src/comm.cpp:131-146 | After a tick the history is still well ordered and every connected object has been welcomed |
| LifecycleSafety.TickIsConnected | src/comm.cpp:118-147 | A tick keeps objects distinct and their frames in order, and leaves no suspended send at a survivor |
| LifecycleSafety.CreateUpdateIsSafe | src/net.cpp:64-89 | An announced client, new or known, keeps the invariant, also when its capabilities throw |
| LifecycleSafety.SendInIsSafe | src/net.cpp:144-149 | A frame for a connection keeps the invariant, delivered or suspended |
| LifecycleSafety.LinkDownIsSafe | src/net.cpp:146-149 | The end of a link keeps the invariant: the cancelled send was the last frame routed |
| LifecycleTraces.FramesEndToEnd | src/net.cpp:140-149 | In every run the frames an object handled, then those buffered, then the one waiting are a subsequence of the client_data frames that arrived for it, short of exactly as many as ends of links cancelled sends to it, and all of them if and only if there was none |
| LifecycleTraces.ArrivalsAreCounted | src/net.cpp:144-149 | Cancelled sends are all that is missing, in number and in order, from the frames that arrived for an object, live or swept |
| LifecycleTraces.NothingLostIff | src/net.cpp:144-149 | Nothing that arrived for an object is lost if and only if no end of a link cancelled a send to it |
| LifecycleTraces.LinkDownLosesFrame | src/net.cpp:144-149 | The end of a link while a frame waits at a full channel loses that frame |
| ChannelOverflow.BurstLosesFrame | src/net.cpp:144-149 | When 201 frames arrive for a client between ticks and the link ends, 200 are routed and the last is lost |
| LifecycleTraces.AllHandledAfterTick | src/net.cpp:461-494 | After any tick of any run every connected object is welcomed, not pending, has an empty channel and has handled everything that arrived for it but the cancelled sends, hence everything if and only if there was none |
| LifecycleTraces.SweptHandledPrefix | src/comm.cpp:120-129 | An object that was swept had handled a prefix of what had arrived for it, if no send to it was cancelled, and in any case a prefix of what was routed |
| LifecycleTraces.EveryRunIsTraced | src/net.cpp:127-149 | What the objects, live or swept, were routed is determined by the events of the run, across reuse of ids |
| LifecycleCapabilities.EveryRunFoldsUpdates | src/net.cpp:64-142 | In every run the capabilities of a connected object are the outcome of the announcements and updates that reached that object, in order, from a new object on, throwing ones included |
| LifecycleCapabilities.ConnectedFieldIsLastMention | src/net.cpp:198-238 | In every run each field of a connected object has the value of the last update that reached the object and mentions the field, or else its default |
| LifecycleTraces.MembershipAfterTick | src/comm.cpp:120-129 | After a tick an id is connected if and only if it was connected or announced before the sweep and nothing marked it dead since the previous one, in whatever order |
| LifecycleTraces.ReannouncingKeepsObject | src/net.cpp:83-87 | No sequence of events between two ticks, repeated announcements included, replaces a connected object |
| LifecycleTraces.StepMembers | src/net.cpp:107-155 | One event adds exactly the announced ids and replaces no connected object |
| LifecycleTraces.CreateAllMembers | src/net.cpp:117-119 | A client list adds the entries before the first that throws, and the reader survives it exactly if none does |
| LifecycleTraces.CreateUpdateMembers | src/net.cpp:64-89 | An announcement adds its id exactly if it is readable and its capabilities do not throw |
| LifecycleTraces.TickMembers | src/comm.cpp:126-128 | A tick removes exactly the dead |
| LifecycleTraces.TickSurvivor | src/comm.cpp:131-146 | A survivor of a tick keeps its object, is welcomed and not pending, and has handled all routed frames |
| LifecycleTraces.TickBeatsOnce | src/comm.cpp:144-146 | A tick gives every survivor exactly one heartbeat and nobody else any |
| LifecycleTraces.CleanedOnce | src/comm.cpp:120-125 | Each dead entry that is found is cleaned up exactly once, with the reason of its mark |
| LifecycleTraces.TickReleasesReader | src/net.cpp:144-149 | A tick releases a suspended reader whose connection survives the sweep; otherwise the reader still waits after it and goes on to the next frame when the removed object is destroyed |
| LifecycleSafety.SuspendedPastTick | src/comm.cpp:120-129 | If a tick leaves the reader suspended, an object it waits for that was still connected has been removed by this sweep |
| LifecycleTraces.ReasonIsLastMark | src/net.cpp:151-154 | Between ticks an id is marked dead with the reason of the last event that marked it, be it a frame, a close or a loss |
| LifecycleTraces.StepReason | src/net.cpp:389-395 | One event changes the mark of one id only, and overwrites an earlier reason |
| LifecycleTraces.MarksAre | src/net.cpp:389-395 | Dead marks after any calls are the old ones and those the calls made |
| LifecycleTraces.MarkIsLastKill | src/net.cpp:389-395 | A mark has the reason of the last call that made it |
| LifecycleTraces.TickMarksAre | src/comm.cpp:129-146 | The only dead marks after a tick are those parsers made during the drain, with the reason of the last of them |
| LifecycleTraces.EveryRunMatchesNotices | src/net.cpp:445-454 | In every run the disconnect notices offered to the portal are, in order, exactly one per object cleaned up with reason GameLogoff and none for the other reasons |
| LifecycleTraces.EveryRunWritesInOrder | src/net.cpp:168-196 | In every run the frames written are a subsequence of those offered |
| LifecycleTraces.EveryRunAccountsForFrames | src/net.cpp:168-196 | In every run each accepted frame is written, lost, being written or queued; without a loss what is done with was written completely and in order |
| LifecycleTraces.EveryRunCountsLosses | src/net.cpp:174-185 | The frames lost are exactly as many as there were failed writes and link ends in the middle of a write |
| LifecycleTraces.AllAcceptedAreWritten | src/net.cpp:168-185 | After any run without losses and with a link up, as many successful writes as accepted frames are left get all of them written, in order |
| LifecycleTraces.WritesGoThrough | src/net.cpp:168-185 | Each of these writes gets one more of the accepted frames out |
| LifecycleTraces.LinkUpStartsWriter | src/net.cpp:168-172 | After a link comes up there is a writer, at the oldest queued frame or waiting, and the reader listens |
| Net.Net.ProcessConnections | src/comm.cpp:118-147 | The loops of the tick, erasing from the maps they share, amount to the one step of the state machine; the process ends exactly if a connection that is not dead has a frame queued with an object whose "cmd" is not a string in its "data"; every play view is told of the departures of the sweep in order; survivors keep their sessions unless they are welcomed |
| LifecycleFrames.TickExitsIff | src/net.cpp:487-491 | The same of a tick of the state machine |
| Net.Net.CleanupDead | src/comm.cpp:120-125 | The first loop over the dead offers the notices, ends the sessions of the dead and of nobody else, and tells each play view who departed and how, in order; no connection's channel changes |
| Net.Net.EraseDead | src/comm.cpp:126-129 | The second loop leaves the survivors and no dead marks |
| Net.Net.Welcome | src/comm.cpp:132-141 | Walking a snapshot while erasing from the set leaves the pending ids that are not connected, welcomes the others once each in order, and ends the sessions of these only |
| Net.Net.BeatAll | src/comm.cpp:144-146 | Every connection is drained, in id order, with all the effects of its parser in order |
| Net.Net.CreateUpdateClient | src/net.cpp:64-89 | Creates or updates the client in the object's maps as the step system says, including the partial update when capabilities throw |
| Net.Net.CreateClients | src/net.cpp:117-119 | The loop over a client list stops at the first entry that throws |
| Net.Net.HandleIncoming | src/net.cpp:104-155 | Routing one frame, known, unknown or malformed, is one reader step, with its effect stated by the keys of the frame |
| LifecycleFrames.FrameTakesEffect | src/net.cpp:104-164 | By the keys "kind", "data", "protocol", "id" and "capabilities": a list connects exactly the ids of its entries up to the first unreadable one, a ready client its id; an update reaches the named connection, data is buffered or waits behind 200 frames, a disconnect marks the id; without a textual kind, or an integer id where one is needed, the reader ends with nothing else changed |
| LifecycleFrames.CreateAllAnnounces | src/net.cpp:117-119 | A list of entries connects and makes pending exactly the ids before the first unreadable entry, and the reader goes on exactly if there is none |
| LifecycleFrames.CreateUpdateAnnounces | src/net.cpp:64-89 | One entry connects its id and stores its capabilities, over those of the object or of a new one |
| LifecycleFrames.LinkDownTakesEffect | src/net.cpp:146-164 | The end of a link ends reader and writer and drops the frame that waits, and nothing else |
| LifecycleFrames.ActsTakeEffect | src/net.cpp:337-395 | A close or a loss marks the id with its reason, and a message is offered as one frame |
| LifecycleFrames.NoticesCarryIds | src/net.cpp:445-454 | The disconnect notices offered in a run have exactly the ids of the objects that the game logged off |
| Net.Net.SendToConnection | src/net.cpp:144-149 | The send appends to the channel, or suspends the reader when 200 are buffered |
| Net.Connection.Arrive | src/net.cpp:412-412 | A channel buffers 200 frames, behind which one waits |
| Net.Net.UpdateCapabilities | src/net.cpp:140-142 | The update touches this connection's capabilities only, and ends the reader when it throws |
| Net.Connection.OnHeartbeat | src/net.cpp:461-494 | Terminates with the channel empty, having made exactly the parser calls of the queued frames, a suspended send included, in order and with their texts and messages; throws exactly if one of them has in its "data" an object whose "cmd" is not a string |
| Net.Connection.HandleFrame | src/net.cpp:487-491 | A frame causes exactly its messages' parser calls, and throws exactly if its "data" has an object whose "cmd" is not a string; a frame built by sendMessage causes the calls of the message that was sent |
| Net.Connection.HandleMessage | src/net.cpp:369-381 | A text command hands each string argument other than "idle" to the parser, in order; any other command is handed over whole |
| Net.Connection.CallParser | src/net.cpp:375-379 | One call with this text or message, and whatever its code does to the marks and the outbound channel |
| Net.Connection.Cleanup | src/net.cpp:416-459 | Always drops the account; for GameLogoff offers one notice and keeps the play view, for the other reasons tells the play view of the departure and lets go of it |
| Net.Connection.OnWelcome | src/net.cpp:383-387 | A welcome drops account and play view |
| Net.SweepEndsGroupOnce | src/comm.cpp:574-586 | A sweep takes exactly the lost and closed connections, never those the game logs off, out of a play view's group; if nobody is left the view learns of it once, with the manner of the last departure |
| Net.LoggedOffMemberStays | src/net.cpp:445-454 | The only connection of a play view, logged off by the game, stays its member, and no end is reported |
| PlayViews.EndsOnce | src/comm.cpp:574-590 | When different members leave, the end is reported exactly once, by the last, and only if all have left |
| PlayViews.LeaveAllMembers | src/comm.cpp:574-586 | Nobody but the departed leaves |
| PlayViews.PlayView.OnConnectionClosed | src/comm.cpp:574-579 | One graceful departure |
| PlayViews.PlayView.OnConnectionLost | src/comm.cpp:581-586 | One departure that is not graceful |
| Net.Connection.Close | src/net.cpp:389-391 | Marks the connection dead with reason GameLogoff over any earlier reason |
| Net.Connection.OnNetworkDisconnected | src/net.cpp:393-395 | Marks the connection dead with reason ConnectionLost over any earlier reason |
| Net.Connection.SendMessage | src/net.cpp:337-349 | Offers one frame with the message to the outbound channel |
| OutboundLink.WrittenInOrder | src/net.cpp:168-196 | What a writer has written is a subsequence of what was offered |
| OutboundLink.AcceptedAreAccountedFor | src/net.cpp:168-196 | Written, lost, being written and queued frames add up to those accepted, and nothing is lost if and only if everything settled was written |
| OutboundLink.RefusedIffFull | src/net.cpp:348-348 | An offer is dropped if and only if 200 frames are queued |
| OutboundLink.TrySendKeepsInv | src/comm.cpp:375-375 | Offering keeps: accepted = taken ++ queued, at most 200 queued, and none queued while a receiver waits; it loses no frame that was accepted |
| OutboundLink.ReceiveKeepsInv | src/net.cpp:171-172 | Taking the next frame keeps the same accounting |
| OutboundLink.WriteEndsKeepsInv | src/net.cpp:174-185 | A write that ends keeps the accounting; a successful one is recorded and a failed one loses one frame; either way the writer takes the oldest queued frame, or waits if there is none |
| OutboundLink.DisconnectKeepsInv | src/net.cpp:174-185 | The end of a link keeps it, and loses one frame exactly if one was being written |
| OutboundLink.LinkChannel.Offer | src/net.cpp:348-348 | try_send on the object hands over, buffers or drops as specified, and says which |
| OutboundLink.LinkChannel.Next | src/net.cpp:172-172 | async_receive takes the oldest queued frame or waits |
| OutboundLink.LinkChannel.FinishWrite | src/net.cpp:168-185 | A successful write is recorded, and after any write the writer holds the oldest queued frame, with the rest still queued, or waits |
| OutboundLink.WriteTakesEffect | src/net.cpp:168-185 | The same of the channel's fields |
| OutboundLink.OfferTakesEffect | src/net.cpp:348-348 | An offer goes straight to a waiting writer, behind the queue while fewer than 200 frames are in it, and nowhere else |
| OutboundLink.ConnectTakesEffect | src/net.cpp:168-172 | After a link starts the writer holds the oldest queued frame or waits |
| Scheduler.Conservation | src/comm.cpp:95-113 | After any heartbeats, countdown + elapsed time = interval * (firings + 1), and the countdown never exceeds the interval |
| Scheduler.ClosedForm | src/comm.cpp:91-116 | After n heartbeats the firings are the minimum over k of floor(elapsed_k / interval) + (n - k) |
| Scheduler.FiringRecurrence | src/comm.cpp:95-113 | Each heartbeat adds one firing unless the elapsed time does not ask for it |
| Scheduler.NeverTooOften | src/comm.cpp:95-113 | Firings never exceed floor(elapsed / interval) |
| Scheduler.UpToDateIff | src/comm.cpp:95-113 | Firings equal floor(elapsed / interval) if and only if the countdown is positive |
| Scheduler.NeverBehind | src/comm.cpp:95-113 | With no delta above the interval the count is always exact and the countdown in (0, interval] |
| Scheduler.CatchesUp | src/comm.cpp:95-113 | A system at countdown c <= 0 under deltas of at most d < interval has time left again within floor(-c / (interval - d)) + 1 heartbeats |
| Scheduler.CatchUpBoundIsTight | src/comm.cpp:95-113 | If every delta is d the system is behind at all heartbeats before that bound |
| Scheduler.CatchUpBound | src/comm.cpp:95-113 | The bound is the first whole number of gains that lifts the countdown above zero |
| Scheduler.RecoversForGood | src/comm.cpp:95-113 | From that bound on its firings equal floor(elapsed / interval) for every continuation |
| Scheduler.StaysUpToDate | src/comm.cpp:95-113 | Under deltas within the interval a positive countdown stays in (0, interval] |
| Scheduler.NonPositiveIntervalAlwaysFires | src/comm.cpp:74-83 | A system made with an interval of zero or less fires at every heartbeat |
| Scheduler.GameSystem.constructor | src/comm.cpp:74-83 | A new system is a full interval away from its first firing |
| Scheduler.GameSystem.Advance | src/comm.cpp:95-113 | One system's turn: at most one call, with this tick's delta, and the remainder carried over |
| Scheduler.Heartbeat | src/comm.cpp:91-116 | Every system advances once, and timings are the names of exactly those whose countdown is used up, in order |
| GameLoop.FiringsWithinWallTime | src/comm.cpp:253-319 | However long rounds overrun and however often the game sleeps, firings * interval never exceeds the wall time between the first and last start plus 0.1 s |
| GameLoop.BusyGameIsExact | src/comm.cpp:253-319 | A game that never sleeps and never overruns a system's interval fires it exactly once per interval, and at least as often as the number of rounds asks for |
| GameLoop.DeltasAreLongEnough | src/comm.cpp:299-318 | Every measured delta is at least the heartbeat interval, overrun rounds with their short wait included |
| GameLoop.DeltasWithinWallTime | src/comm.cpp:257-318 | The deltas used so far sum to at most 0.1 s plus the wall time between the first and last start |
| GameLoop.DeltasAccountForIntervals | src/comm.cpp:257-318 | They sum to at least 0.1 s plus one interval per later round |
| GameLoop.FedWithinDeltas | src/comm.cpp:159-212 | What the systems are fed never exceeds what the loop measured |
| GameLoop.SavesAreSpaced | src/comm.cpp:285-288 | Without a request to save, consecutive save points are at least 300 and less than 300 + D accounted seconds apart |
| GameLoop.SaveCount | src/comm.cpp:256-288 | After T accounted seconds with deltas of at most D, floor(T / (300 + D)) <= saves <= floor(T / 300) |
| GameLoop.TurnsAccount | src/comm.cpp:285-318 | In a run without requests to save the loop's delta and save timer are those of the measured deltas |
| GameLoop.RoundSavesIff | src/comm.cpp:267-289 | The last round of any run saves, at the time accounted so far, exactly if the save timer is due, or in this or an earlier round a save or, during the work, shutdown was asked for |
| GameLoop.RequestsStand | src/comm.cpp:267-290 | A request to save stands for the rest of the run; a signal during a wait is none |
| GameLoop.SignalEndsWithoutSave | src/comm.cpp:261-318 | A game that a signal stops in the wait after its first round leaves without a save |
| GameLoop.Game.RunOneLoop | src/comm.cpp:149-212 | Without an active play view no system moves; with one each system's countdown drops by the delta and is carried over if it fires; the game sleeps exactly without play views |
| GameLoop.IdleRoundsFeedNothing | src/comm.cpp:159-212 | Rounds without an active play view leave every system where it was |
| GameLoop.ActiveRoundFeeds | src/comm.cpp:207-209 | A round with an active play view feeds its delta |
| GameLoop.PunctualRound | src/comm.cpp:301-318 | With a punctual timer a round takes the interval, or a millisecond longer than its work |
| GameLoop.Game.OneRound | src/comm.cpp:261-318 | One round accounts its delta, saves when due or asked, and measures the next delta |
| GameLoop.Game.Loop | src/comm.cpp:253-319 | The loop runs through the first round in whose work or wait shutdown is asked for, and every system ends where the deltas of the active rounds take it |
| PartialMatch.PartialMatch | include/kai/sysdep.h:51-78 | Returns the end if and only if no key matches, and otherwise the first position among the accepted elements with the byte-order least key; an exact search accepts the keys equal to the text but for the case of letters, another one also those that begin with it |
| PartialMatch.SelectionIsUnique | include/kai/sysdep.h:66-76 | The range determines the selected position |
| PartialMatch.SelectionIgnoresOrder | include/kai/sysdep.h:59-76 | With distinct keys, permuting the range does not change the chosen value |
| PartialMatch.AcceptanceIgnoresOrder | include/kai/sysdep.h:66-77 | Permuting the range does not change whether something is found |
| PartialMatch.ExactWinsIffExactKeyComesFirst | include/kai/sysdep.h:66-76 | An exact name beats an abbreviation for every search text if and only if, whenever a key extends another apart from case, some key equal to the shorter one apart from case comes before it in byte order |
| PartialMatch.FoldedKeysLetExactWin | include/kai/sysdep.h:66-76 | Among keys without capitals an exact name always wins |
| PartialMatch.MixedCaseLetsAbbreviationWin | include/kai/sysdep.h:66-76 | Among "ab" and "ABC" the search for "ab" selects "ABC" |
| PartialMatch.SelectionExists | include/kai/sysdep.h:66-77 | Whenever a key is accepted there is a selected position |
| PartialMatch.Insert | include/kai/sysdep.h:61-64 | Insertion keeps the multimap sorted, with equal keys in order of insertion |
| PartialMatch.Find | include/kai/sysdep.h:70-70 | The first position holding a value |
| Text.PrefixComesFirst | include/kai/sysdep.h:59-64 | A string precedes its proper extensions in byte order |
| Attributes.HistoryIsFlat | include/kai/structs.h:20-85 | Over any history of set, remove and deserialize, loads that throw at any point included, the nested store and a flat map from (category, name) agree |
| Attributes.NeverEmptyIff | include/kai/structs.h:31-85 | A category is stored empty at some point of a history if and only if the first failure of some load in it is an entry that converts but has no name, inside an object |
| Attributes.NoEmptyAfterLoadIff | include/kai/structs.h:78-85 | One load leaves an empty category if and only if its first failure is an entry that converts but has no name, inside an object |
| Attributes.ArrayLeavesEmptyCategory | include/kai/structs.h:78-85 | Loading a category "c" that is the array [1] throws and leaves "c" stored empty, if numbers convert |
| Attributes.UnreadEndsWithoutEmpty | include/kai/structs.h:78-85 | A value that does not convert ends a load before a nameless category after it is created |
| Attributes.LoadThrowsIff | include/kai/structs.h:78-85 | A load throws exactly if some category is not empty and is not an object, or lies outside an object, or has a value whose conversion throws |
| Attributes.LoadFlat | include/kai/structs.h:78-85 | A load stores exactly the entries that precede its first failure by category and name in byte order, whatever was stored before |
| Attributes.RoundTrip | include/kai/structs.h:68-85 | Loading what a store serialized to restores the store less its empty categories, the empty store that prints as null included |
| Attributes.SerializeAfterLoadIsStable | include/kai/structs.h:68-85 | Serializing after a load is idempotent |
| Attributes.UnloadOfFull | include/kai/structs.h:68-76 | Empty categories leave no trace in the JSON |
| Attributes.AttributeManager.Get | include/kai/structs.h:20-30 | The flat map's value, or the default |
| Attributes.AttributeManager.Set | include/kai/structs.h:31-33 | Updates one entry of the flat map, creating the category |
| Attributes.AttributeManager.Remove | include/kai/structs.h:34-42 | Removes one entry of the flat map, and the category with its last entry |
| Attributes.AttributeManager.Has | include/kai/structs.h:43-49 | Membership in the flat map |
| Attributes.AttributeManager.ListCategories | include/kai/structs.h:50-56 | Each stored category once; without empty ones, exactly those with an entry |
| Attributes.AttributeManager.ListEntries | include/kai/structs.h:57-66 | Each name stored under the category once |
| Attributes.AttributeManager.Serialize | include/kai/structs.h:68-76 | The loops build the JSON object of all entries, null if there is none |
| Attributes.AttributeManager.Deserialize | include/kai/structs.h:78-85 | The loops store what a load stores, and fail where it throws, at a conversion, a category's key or a name's |
| Capabilities.LastMentionWins | src/net.cpp:198-238 | After any sequence of updates, throwing ones included, each field holds the value of the last update that reached and mentioned it, or else what it held before |
| Capabilities.HostNamesAccumulate | src/net.cpp:209-211 | Host names are the concatenation of all lists received, each up to its first element that is not a string |
| Capabilities.RunThrowsIff | src/net.cpp:198-238 | An update throws exactly if one of its keys has an unreadable value, independently of the object |
| Capabilities.RunField | src/net.cpp:198-238 | What one update leaves in a field, also when it throws on the way |
| Capabilities.RunHosts | src/net.cpp:209-211 | What one update appends to the host names; the active flags never change |
| Capabilities.RoundTripIff | src/net.cpp:198-277 | Serializing and loading into a new object is the identity if and only if the protocol is Telnet, no colour is set and both active flags are false |
| Capabilities.ReloadThrowsIff | src/net.cpp:215-253 | Loading one's own serialization throws exactly if a colour was set |
| Capabilities.ColouredObjectDoesNotReload | src/net.cpp:215-253 | An update with colour 1 under both keys is stored, and the object's own serialization then throws |
| Capabilities.HistoryIsTyped | include/kai/net.h:87-110 | After any updates every field is present with a value of its type and width |
| Capabilities.ProtocolCapabilities.constructor | include/kai/net.h:87-105 | A new object holds the declared defaults |
| Capabilities.NewObjectHolds | include/kai/net.h:87-105 | These defaults, by key: Telnet, no colour, "UNKNOWN" for the three names, width 80, height 52, and nothing set otherwise |
| Capabilities.ProtocolCapabilities.Deserialize | src/net.cpp:198-238 | Throws exactly if a known key has a value of the wrong type, and otherwise stores what was given: switches and texts as they are, protocol names in whatever case, numbers in the width of their field, a colour from the key "color", host names appended; a throw keeps the fields assigned before it |
| Capabilities.UpdateStores | src/net.cpp:198-238 | The same of one update of any object |
| Capabilities.UpdateThrowsIff | src/net.cpp:198-238 | An update throws exactly if a known key has a value of the wrong type |
| Capabilities.FieldAfter | src/net.cpp:198-238 | Each field after an update, also one that throws: what was given, if the statements up to its own do not throw, and else what it was |
| Capabilities.ProtocolCapabilities.AppendHosts | src/net.cpp:209-211 | Appends the leading strings of the list, and throws exactly if that is not all of it |
| Capabilities.ProtocolCapabilities.Serialize | src/net.cpp:240-277 | Shows, by key, the switches that are on, the names, an encoding if there is one, and numbers, colours and host names other than those of a new object; never the protocol, and no other key |
| Messages.SentMessageIsReadBack | src/net.cpp:337-348 | The frame of a sent message holds exactly that message, whatever its parts are |
| Messages.SentMessageCalls | src/net.cpp:337-348 | The parser calls of that frame are those of the message that was sent |
| Messages.ParseThrowsIff | src/net.cpp:406-410 | The constructor throws exactly on an object whose "cmd" is not a string, and otherwise takes the values under the three keys or the empty ones |
| Messages.FrameOkIff | src/net.cpp:487-490 | A frame can be read exactly if no such object is in its "data" |
| Messages.MessageCallsAre | src/net.cpp:369-381 | The calls of a text command are those of its arguments that are texts other than "idle" in whatever case, in order; any other command is one call |
| Messages.DataFrameIs | src/net.cpp:337-348 | The keys and values of a sent frame |
| Messages.SerializeIsStable | src/net.cpp:397-410 | A serialized message always parses, and serializes to the same JSON again |
| Messages.RoundTripIff | src/net.cpp:397-410 | Parsing a serialized message gives it back if and only if its empty parts have the default shape |
| Messages.SerializedIsReadBack | src/net.cpp:397-410 | A serialized message is read back with the default shape in place of its empty parts |

## Left out

- Multithreaded mode: the mutexes guard single insertions only; data races between threads and C++ object lifetimes beyond `SendAbandoned` are not modelled.
- Link transport: WebSocket, TCP, pings, the executor, reconnection timing and the text form of JSON. A link is an environment that starts, supplies frames, completes writes and ends.
- JSON numbers that are not integers, and invalid UTF-8 in texts; upper case is that of ASCII.
- LifecycleTraces.TickReleasesReader: does not say when, or that ever, a reader suspended on a removed connection goes on, because that depends on the owners of the object.
- Which parser a connection has: its calls are recorded and its behaviour is arbitrary, but how a parser is attached is not part of the code modelled.
- Accounts and play views: no code in the repository attaches them, so they are part of the objects' state but not of the runs, and `SweepEndsGroupOnce` takes as given that attached connections are members of their group. `isActive`, always true so far, and the set of play views are inputs of a round.
- Start and end of a link and the destruction of a removed connection as methods: they are steps of `Lifecycle` and `OutboundLink` (`Connect`, `Disconnect`, `Cancelled`, `SendAbandoned`) without a counterpart among the objects of `Net`.
- Net.Connection.OnHeartbeat: the state after a malformed frame is not described, because the process ends there; `lastActivity` is not modelled.
- Net.Net.ProcessConnections: walks the connections in ascending id order as the ordered map does, and takes the order of the unordered map of dead marks as an argument.
- Capabilities.ProtocolCapabilities.Deserialize: the 31 statements are one table and a loop over it, and the fields a map under the keys of the table.
- Capabilities.ProtocolCapabilities.Serialize: asks that every field has a value of its type, which C++ gives by declaration and `HistoryIsTyped` shows for every object made and updated here.
- Attributes.RoundTrip: assumes that reading back what a value was written as gives the value, and that writing never throws.
- Capabilities.ReloadThrowsIff: the read of the missing key `color` through a const reference is undefined in C++; the throw is what the model takes it for.
- Capabilities.ColouredObjectDoesNotReload: the same read of a missing key.
- PartialMatch.PartialMatch: equality of elements is structural, so equal elements have equal keys.
- GameLoop.Game.Loop: rounding of `double` is not modelled; times are real numbers.
- Scheduler.Heartbeat: callbacks that throw end the process and so the run; the durations stored in timings are not modelled.
- Database transactions, logging, signals, start-up, configuration, scripting, and the declared but unimplemented game objects and relations.
