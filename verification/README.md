# Verification of the service core

A Dafny model of the parts of these Go services that have real state: the event bus and its consumer-group protocol on
Redis streams, the packet-handler registry and the connection manager, the login request/reply over channels, the binary
and text codecs, the caches that must agree with the database, and the time and level arithmetic. `dafny verify
dfyconfig.toml` checks everything.

Code that edits slices, maps or objects in place is modelled as classes and methods over arrays and maps, each proved
against a specification function; concurrent protocols are transition systems whose steps interleave freely; pure code
is functions. Whatever Go leaves open (map iteration order, slice growth, batch sizes, each reading of the clock, random
ids, and in which order, and how far, goroutines get before the work they share is sent off) is a parameter or an arbitrary
choice, so the theorems hold for all of it.

| file | models |
|---|---|
| `GoSlice.dfy` | slice headers over shared backing arrays: `append`, and removal by `append(s[:i], s[i+1:]...)` |
| `HandlerSlices.dfy`, `EventHandlers.dfy` | a slice that is edited in place while a loop ranges over it; the handler tables of `LocalBus` and `RedisSubscriber`, and dispatch under interference |
| `EventStream.dfy`, `EventStreamDelivery.dfy`, `EventStreamSafety.dfy`, `EventStreamOrder.dfy`, `EventStreamRecovery.dfy`, `EventStreamMeasure.dfy`, `EventStreamTiming.dfy`, `EventStreamFates.dfy`, `EventStreamReading.dfy` | publish, read, dispatch, acknowledge, crash, claim and recover, by any number of consumers; how fast recovery catches up, what it takes on, and what becomes of each entry |
| `EventTables.dfy` | the slice-backed handler table of a subscriber refines the handlers in the protocol's state |
| `PacketHandlers.dfy`, `SessionManager.dfy`, `LoginChannels.dfy` | handler ids and removal while ranging; close-once, sends after a close, and session routing; login over unbuffered channels |
| `Wire.dfy`, `CfhTopics.dfy` | the packet format, framing and batching; the nested topics packet with its decoder |
| `Decimal.dfy`, `HeaderList.dfy`, `ServiceRegistry.dfy` | decimal text and separators; the header list; service registration, its records and events |
| `Achievements.dfy`, `AchievementLadder.dfy` | grouping rows and cached records; what is shown for a user's progress |
| `Ranks.dfy` | ranks parsed from a row and from a hash |
| `SubscriptionCache.dfy`, `SubscriptionLoads.dfy`, `Subscriptions.dfy` | what it means for the subscription cache to agree with the table; loading it through a pipeline that may be sent half filled; the requests |
| `ClubTime.dfy` | past time, gifts, days and minutes left |

## What does not hold

Some natural claims are false of the code. Each has its exact condition as a theorem:

- Entries can leave the stream without ever being delivered, pending or acknowledged: `Publish` trims to 2000 entries.
  This happens in exactly the runs that publish while 2000 entries await delivery (`EventStreamSafety.SkippedIff`). So the
  places an entry can be in are four, not three (`EventStreamSafety.NoSilentLoss`).
- `LocalBus.Publish` ranges over the live slice. It calls just the handlers subscribed when it started if and only if no
  `append` or removal before a call wrote the array position which that call reads, whatever is subscribed and unsubscribed
  in between (`HandlerSlices.UnnoticedIff`). Subscriptions alone never do (`HandlerSlices.SubscribingUnnoticed`). A single
  removal with nothing else touching the table goes unnoticed exactly if it is of the last handler or just before the last
  call; any other skips a handler and runs the last one twice (`HandlerSlices.UnsubscribeUnnoticedIff`,
  `HandlerSlices.UnsubscribeSkipsAndRepeats`).
- Callers of `Login` that wait together can receive each other's answer (`LoginChannels.RepliesCanCross`). Every reply is for
  the caller's own ticket in all runs if and only if callers can present at most one ticket (`LoginChannels.RepliesMatchIff`).
- A ticket without a user row makes the login listener panic, in exactly the runs that reply for one
  (`LoginChannels.AnswersTrue`). No run panics if and only if every ticket that callers can present resolves
  (`LoginChannels.NeverPanicsIff`).
- `Client.write` panics on a message of less than 6 bytes, exactly if that message is the one that starts a frame, because
  only that one is parsed for the log (`Wire.Write`). Whatever is queued when, nothing panics, if and only if every message
  sent has at least 6 bytes (`Wire.NeverPanicsIff`). Composed packets are long enough (`Wire.WriteComposed`).
- `sessions` routes exactly in precisely the runs in which every login names a registered client without another key, and
  a non-empty key that nobody else holds (`SessionManager.SessionsExactIff`).
- A send to a client panics exactly when it follows the client's death (`SessionManager.SendPanicsIff`). While logins are as
  above, one that was routed through `sessions` does so exactly if the client dies between the lookup and the send
  (`SessionManager.RoutedSendPanicsIff`).
- The record stored for an incoming service loses the group, which the event for the same registration carries
  (`ServiceRegistry.StoredRoundTrip`, `ServiceRegistry.EventRoundTrip`), and a later registration of the same name never
  changes the record (`ServiceRegistry.FirstRecordKept`).
- A hash hit of `GetPermission` answers for any numeric column, not only for permissions (`Ranks.HashHitIsRankPermissionIff`).
- A load of subscriptions executes its pipeline without waiting for the goroutines that fill it, and what is queued later is
  never sent. From a coherent cache, every such load, however little of it is sent, leaves the user's index entries exact if
  and only if the rows it read are still current and no hash it writes is named by the index entry of another row
  (`SubscriptionLoads.AllLoadsCoherentIff`); the latter is so in every run in which each user's rows always come in one order
  (`Subscriptions.FixedOrderIsSafe`). A load that was sent completely needs only current rows
  (`SubscriptionLoads.CompleteLoadCoherentIff`).
- A scan of the cached hashes may return a key twice, and the list then has its row twice, as for one cached subscription
  scanned as 0, 0 (`Subscriptions.RepeatedHashRepeatsRow`). A complete cache gives what selecting the rows gives if and only
  if the scan repeats no key (`SubscriptionLoads.ScanSelectsIff`).
- A list request takes the cached hashes for the whole list as soon as the first one exists. After a load for a user with
  nothing cached, such lists are complete, however little of the load was sent, if and only if the user has at most one
  subscription (`SubscriptionLoads.NothingHiddenIff`).
- The catalog adds a subscription's start and duration in 32 bits; if that wraps before the end has passed, the whole
  duration counts as past (`ClubTime.CatalogCountsElapsedIff`). The subscription service does not clamp the time left at
  zero, so the two services agree on past time exactly while nothing has expired (`ClubTime.ServicesAgreeIff`).

## Model

| member | source | states |
|---|---|---|
| `GoSlice.Append` | api/events/redis.go:90 | appending leaves every older header with what it showed, and either writes just the next cell of the shared array or moves to a new one |
| `GoSlice.RemoveAt` | api/events/redis.go:69 | the new header shows the rest in order; in the shared array everything behind moves down by one and nothing else changes, so an older header shows the last element twice |
| `EventHandlers.HandlerTable.Subscribe` | api/events/redis.go:85-96 | the new instance is unique and comes last for its type; other types and older headers are undisturbed |
| `EventHandlers.HandlerTable.Unsubscribe` | api/events/redis.go:62-73 | exactly the given instance is taken out, the rest keep their order; unknown ones change nothing; older headers see the shift |
| `EventHandlers.HandlerTable.SubscribeBeside` | api/events/bus.go:84-95 | a subscription never disturbs a reader that holds any slice header taken before |
| `EventHandlers.HandlerTable.InterfereBeside` | api/events/bus.go:71-95 | a subscription or removal does to the array behind a loop's slice just what the array's own transitions say, appends that move to a new array included |
| `EventHandlers.HandlerTable.Publish` | api/events/bus.go:97-111 | under any interleaved subscriptions and removals it calls what the array shows call by call; under subscriptions alone exactly the handlers subscribed at the start, once each, in order |
| `HandlerSlices.UnnoticedIff` | api/events/bus.go:71-111 | under arbitrary interleavings the loop calls exactly the handlers subscribed at its start, in order, if and only if no edit before a call wrote the position it reads |
| `HandlerSlices.SubscribingUnnoticed` | api/events/bus.go:84-111 | interleaved subscriptions alone are never noticed |
| `HandlerSlices.OneRemovalReads` | api/events/bus.go:71-111 | if the only thing that touches the table during the loop is one removal, the loop calls the handlers up to it and then what the shifted array shows |
| `HandlerSlices.UnsubscribeUnnoticedIff` | api/events/bus.go:71-111 | such a removal alone does not change which handlers run if and only if it is of the last one or just before the last call |
| `HandlerSlices.UnsubscribeSkipsAndRepeats` | api/events/bus.go:71-111 | any other removal alone makes the loop skip a handler and run the last one twice |
| `EventHandlers.HandlerTable.Dispatch` | api/events/redis.go:184-204 | because the slice is copied first, exactly the handlers subscribed at the snapshot run, in order, under any interleaved subscriptions and removals |
| `EventStreamDelivery.RunInv` | api/events/redis.go:184-260 | in every run handler tables match the log, acknowledged entries are handled, and every worker has handled what it has passed in its batch |
| `EventStreamDelivery.CallOk` | api/events/redis.go:137-144 | a call, whether or not the handler panics, leaves the worker with exactly the first handlers of its snapshot called, one more than before, or past the message when that was the last |
| `EventStreamDelivery.BeginOk` | api/events/redis.go:187-199 | a worker that starts a message owes it all the handlers subscribed at that moment, or has passed it as malformed or without handlers |
| `EventStreamDelivery.AtLeastOnce` | api/events/redis.go:137-210 | in every interleaving of any number of consumers, with crashes and lost replies, an acknowledged entry was found malformed or had every handler of a snapshot called |
| `EventStreamSafety.RunAccounted` | api/events/redis.go:75-83 | every run keeps the stream within 2000 entries and each entry in its one place |
| `EventStreamSafety.NoSilentLoss` | api/events/redis.go:75-260 | every entry past the group's start and up to the last delivered one is exactly one of pending, acknowledged, dropped at a claim, or trimmed before delivery, and only trimmed ones are lost |
| `EventStreamSafety.SkippedIff` | api/events/redis.go:75-83 | entries are trimmed undelivered in exactly the runs that publish while 2000 entries await delivery |
| `EventStreamSafety.Publications` | api/events/redis.go:75-83 | 2001 publications without a reader lose the first entry |
| `EventStreamOrder.OrderedFirstDelivery` | api/events/redis.go:232-258 | over all consumers no entry is delivered twice by a read, and each consumer first handles its entries in stream order |
| `EventStreamRecovery.CallAll` | api/events/redis.go:201-203 | the inner loop calls every handler of the snapshot once, in order, whatever panics |
| `EventStreamRecovery.HandleOne` | api/events/redis.go:187-204 | one message: the snapshot, then all its calls, or a rejection |
| `EventStreamRecovery.HandleNth` | api/events/redis.go:187-204 | the loop body after any number of earlier messages of the batch |
| `EventStreamRecovery.HandleMessages` | api/events/redis.go:184-210 | the whole batch is handled in order and then acknowledged, as legal steps of the protocol |
| `EventStreamRecovery.CollectStuck` | api/events/redis.go:160-165 | the page's entries idle for longer than the threshold, in order |
| `EventStreamRecovery.ClaimAndHandle` | api/events/redis.go:170-181 | with no step of others in between, the claimed entries leave the pending list: acknowledged if still in the stream, dropped if trimmed |
| `EventStreamRecovery.Recover` | api/events/redis.go:146-182 | with no step of others in between, one round settles exactly the stuck entries of the oldest page and nothing else |
| `EventStreamRecovery.RoundTakes` | api/events/redis.go:146-182 | with n pending entries all stuck, a round removes min(200, n), and all of them are acknowledged or dropped |
| `EventStreamRecovery.TickAndRecover` | api/events/redis.go:220-224 | with no step of others in between, each tick with stuck entries uses up exactly one of the rounds left |
| `EventStreamRecovery.RecoverInterval` | api/events/redis.go:212-230 | left alone, ceil(n / 200) rounds empty the pending list, and every entry is accounted for |
| `EventStreamMeasure.RecoveryMeasure` | api/events/redis.go:75-230 | whatever is published, trimmed, subscribed and unsubscribed between any steps of one recovery loop, r rounds leave max(0, n - 200 r) of n stuck entries, none exactly from round ceil(n / 200) on; each one gone was dropped if it was trimmed when claimed, and acknowledged otherwise |
| `EventStreamMeasure.NeverStops` | api/events/redis.go:146-210 | in every such run the recovery loop always has a next step |
| `EventStreamTiming.ScanTakesIff` | api/events/redis.go:146-168 | in every run a scan takes, in stream order, exactly the entries that are among the 200 oldest pending and were last read or claimed more than 1000000 microseconds ago |
| `EventStreamTiming.IdleIs` | api/events/redis.go:146-182 | in every run the pending list names the consumer an entry was last read or claimed by, and its idle time is the sum of the ticks since |
| `EventStreamFates.StreamIs` | api/events/redis.go:75-83 | after any run the stream's messages are those it started with and those published, in order, all but the last 2000 trimmed |
| `EventStreamFates.PendingIff` | api/events/redis.go:146-258 | an entry is pending if and only if some step read or claimed it and none acknowledged or dropped it since |
| `EventStreamFates.SettledIff` | api/events/redis.go:170-210 | an entry is acknowledged if and only if a worker with it in its batch got its acknowledgement through, and dropped if and only if a claim found it trimmed |
| `EventStreamFates.BegunFrom` | api/events/redis.go:170-258 | a worker handles only entries whose read or claim it got the reply of, and its batch is all that step handed out, in stream order |
| `EventStreamFates.CrashSilences` | api/events/redis.go:212-260 | after a crash neither loop of the consumer takes a step |
| `EventStreamReading.ReadOnce` | api/events/redis.go:235-258 | with no step of others in between, one turn of the read loop handles everything not yet read, in order, and acknowledges it |
| `EventStreamReading.StartAndReceive` | api/events/redis.go:75-258 | a fresh subscriber has its handler called once for an event published then, whether or not it panics, and the event is acknowledged |
| `EventTables.SubscribeStep` | api/events/redis.go:85-96 | subscribing with the slices is an enabled step of the protocol, and afterwards the table again holds, type by type and in order, what the protocol keeps for the consumer |
| `EventTables.UnsubscribeStep` | api/events/redis.go:62-73 | unsubscribing with the slices is the protocol's step |
| `EventTables.DispatchStep` | api/events/redis.go:184-204 | what a dispatch calls, whatever happens to the table meanwhile, is the snapshot of the protocol |
| `EventTables.SubscribeShows` | api/events/redis.go:85-96 | appending a fresh instance keeps table and protocol alike |
| `EventTables.UnsubscribeShows` | api/events/redis.go:62-73 | cutting out an instance by position is removing its address, and an absent one changes neither |
| `EventTables.OthersShow` | api/events/redis.go:75-260 | no other step of the protocol changes what the table has to hold |
| `PacketHandlers.HandlerManager.RegisterHandler` | networking/handlers.go:26-34 | appends a handler under a new id, enters the id, and returns it |
| `PacketHandlers.HandlerManager.RemoveHandler` | networking/handlers.go:36-44 | removes exactly the handler with that id, keeps the order of the rest and every other header |
| `PacketHandlers.HandlerManager.RemoveFrom` | networking/handlers.go:39-43 | the loop is right although it ranges over the stale header while the array behind it is shifted |
| `PacketHandlers.RunConsistent` | networking/handlers.go:26-44 | over all runs ids are unique and below the count, and the id table names each live handler's header |
| `PacketHandlers.RunIsLive` | networking/handlers.go:26-44 | after any run each header's list is exactly the registrations not removed later, in order, the n-th one with id n |
| `PacketHandlers.RemovedEverywhere` | networking/handlers.go:36-44 | looking only in the list that the id table names removes the id everywhere |
| `PacketHandlers.RemoveAbsent` | networking/handlers.go:36-44 | removing an id that no list holds changes nothing |
| `PacketHandlers.RemoveTwice` | networking/handlers.go:36-44 | a repeated removal changes nothing |
| `SessionManager.ClosedOnceOnLeaving` | networking/manager.go:30-47 | in every run that registers each connection once, its send channel is closed once if it has left `clients` and never otherwise, however often die is called |
| `SessionManager.LogInExactIff` | networking/manager.go:41-43 | a login keeps routing exact if and only if it names a registered client without another key, and a non-empty key nobody else holds |
| `SessionManager.SessionsExactIff` | networking/manager.go:30-47 | `sessions` is exactly the map from key to live logged-in client throughout a run if and only if every login in it is of that kind |
| `SessionManager.DieExact` | networking/manager.go:35-40 | a connection's death keeps routing exact |
| `SessionManager.RoutedIff` | networking/manager.go:30-47 | in every run, whatever the logins, a key routes to the client of the last login with it, unless a registered client whose latest key it was died after that login, and then nowhere |
| `SessionManager.LastLoginRoutes` | networking/manager.go:41-43 | a login takes its key over, whoever had it |
| `SessionManager.SendPanicsIff` | networking/handlers.go:50-53 | in every run that registers each connection once, a send on a client's channel panics if and only if it follows the client's death |
| `SessionManager.RoutedSendPanicsIff` | networking/rpc.go:42-60 | while logins keep routing exact, a send to the client that `sessions` named earlier panics if and only if the client died in between |
| `SessionManager.Client.CloseSend` | networking/manager.go:39 | closes an open channel; closing twice is ruled out |
| `SessionManager.Manager.HandleRegister` | networking/manager.go:33-34 | refines the register step |
| `SessionManager.Manager.HandleDie` | networking/manager.go:35-40 | refines the die step, and closes only open channels |
| `SessionManager.Manager.HandleLogin` | networking/manager.go:41-44 | refines the login step: the key routes to this client from now on, and is the client's key |
| `SessionManager.Manager.Handle` | networking/manager.go:30-47 | one message or send refines the step, and panics exactly for a send on a closed channel |
| `SessionManager.Manager.Serve` | networking/manager.go:30-47 | the loop over any messages that register each connection once, with sends in between, never closes a channel twice and stops exactly at the first send after its client's death |
| `LoginChannels.RunConserved` | player/event.go:116-139 | in every interleaving, waiting callers are as many as tickets in flight, and every accepted ticket is in flight or replied, once |
| `LoginChannels.ReplyAlwaysReceived` | player/event.go:121-122 | whenever the listener sends a reply, some caller is there to receive it |
| `LoginChannels.EveryoneAnswered` | player/event.go:204-216 | no deadlock: once no new caller comes, exactly the steps owed are taken and then every caller has an answer, unless a ticket made the listener panic |
| `LoginChannels.AnswersTrue` | player/event.go:121-126 | answers are true if every ticket resolves; the listener panics in exactly the runs that reply for one that does not |
| `LoginChannels.NeverPanicsIff` | player/event.go:116-139 | no run that presents tickets of a set makes the listener panic if and only if all of the set resolve |
| `LoginChannels.SequentialRepliesMatch` | player/event.go:134-139 | with one caller outstanding at a time, every reply is for the caller's own ticket |
| `LoginChannels.RepliesCanCross` | player/event.go:134-139 | any two callers with different resolvable tickets that wait together can get each other's reply |
| `LoginChannels.RepliesMatchIff` | player/event.go:116-139 | every reply is for the caller's own ticket in all runs that present tickets of a set if and only if the set has at most one |
| `Wire.ShortToBytes` | networking/packets.go:38-42 | fills the two big-endian bytes of the value modulo 2^16 |
| `Wire.IntegerToBytes` | networking/packets.go:32-36 | fills the four big-endian bytes of the value modulo 2^32 |
| `Wire.ComposePacket` | networking/packets.go:111-117 | the loop gives size prefix, header and values |
| `Wire.ReadIntOf` | networking/packets.go:62-64 | reading a written integer gives it modulo 2^32, or sign-extended in the moderation tool |
| `Wire.ReadShortOf` | networking/packets.go:58-60 | reading a written short gives it modulo signed 16 bits |
| `Wire.ReadStringOf` | networking/packets.go:66-69 | a string comes back if and only if it has at most 32767 bytes |
| `Wire.ValueReads` | networking/packets.go:71-110 | each kind of value reads back, with what follows it untouched |
| `Wire.ValuesInOrder` | networking/packets.go:111-117 | the first value's bytes come first |
| `Wire.ParseOfCompose` | networking/packets.go:44-56 | a composed packet parses to its header modulo signed 16 bits and exactly its values' bytes |
| `Wire.SplitOfConcat` | networking/packets.go:28-36 | concatenated packets are uniquely splittable by size prefix if and only if every size fits 32 bits |
| `Wire.WriteFrame` | networking/client.go:79-83 | a frame is the received packet followed by those queued, in order |
| `Wire.Write` | networking/client.go:65-89 | the frames are batches of the sent packets in FIFO order, nothing lost or repeated, each as large as the queue was long, until the end or a panic; it panics exactly at a packet under 6 bytes that starts a frame |
| `Wire.NeverPanicsIff` | networking/client.go:68-83 | no choice of what is queued when makes the loop panic if and only if every packet sent has at least 6 bytes |
| `Wire.WriteComposed` | networking/client.go:65-89 | composed packets are all written without a panic; splitting any frame, or the whole stream, by size prefix recovers exactly its packets if and only if their sizes fit the prefix |
| `CfhTopics.SerializeAll` | modtool/composers.go:7-13 | the count followed by each item's bytes |
| `CfhTopics.CfhTopicsComposer` | modtool/composers.go:23-25 | the packet parses to header 325 and the counted categories with their topics |
| `CfhTopics.Fill` | modtool/composers_test.go:64-74 | the decoding loops read exactly the announced number of items, or panic |
| `CfhTopics.ReadManyOf` | modtool/composers_test.go:67-71 | a list of items reads back, with the rest untouched, if and only if every item does |
| `CfhTopics.ReadCategoryOf` | modtool/composers_test.go:64-74 | a category reads back in front of anything if it is in range, and not otherwise |
| `CfhTopics.RoundTripIff` | modtool/composers_test.go:87-97 | decoding the packet returns the original list if and only if strings are at most 32767 bytes, ids are int32 and the size fits |
| `Decimal.ParseInt32OfPrint` | configuration/data.go:261 | parsing a printed number gives it back if it fits 32 bits, and an error otherwise |
| `Decimal.SplitOfJoin` | configuration/data.go:258 | splitting what was joined gives the parts back, and one empty part for none |
| `Decimal.ParseInt32Iff` | configuration/data.go:261 | text parses to n if and only if n fits 32 bits and the text is n's decimal form, perhaps behind a sign and leading zeros |
| `Decimal.NoLeadingZero` | configuration/rpc.go:151-156 | a printed number has no leading zero, but for zero itself |
| `HeaderList.PrintHeaders` | configuration/rpc.go:151-156 | the loop gives the decimal forms of all headers joined with semicolons |
| `HeaderList.ParseHeaders` | configuration/data.go:258-265 | the loop gives the numbers of the parts that parse, in order, and skips the rest |
| `HeaderList.RoundTrip` | api/configuration/api.go:216-223 | every list of 32-bit headers, empty or with negatives, survives printing and parsing |
| `HeaderList.ClientRoundTripIff` | api/configuration/api.go:164-168 | what a client passes is what every reader gets if and only if all headers fit 32 bits |
| `ServiceRegistry.StoredRoundTrip` | configuration/data.go:236-279 | a registration read from its records is the one stored, except for the group |
| `ServiceRegistry.EventRoundTrip` | configuration/rpc.go:130-164 | a listener gets the whole registration from a REGISTER or UPDATE event, nothing from a NOOP, and never panics |
| `ServiceRegistry.Server.RegisterService` | configuration/rpc.go:166-249 | the new records, the status and the published event of one call |
| `ServiceRegistry.StatusExact` | configuration/rpc.go:168-213 | in every run a status is CREATED, UPDATED or UNCHANGED exactly when neither, one or both services existed or were named before |
| `ServiceRegistry.KindExact` | configuration/rpc.go:168-213 | in every run the event is a REGISTER, UPDATE or NOOP exactly when neither, one or both services existed or were named before |
| `ServiceRegistry.ReadValues` | api/configuration/api.go:207-260 | reading an event with texts that are not numbers: 0 for a database, and headers left out |
| `ServiceRegistry.RecordsAfter` | configuration/data.go:219-227 | after any run exactly the services there before or named have records, and old records are unchanged |
| `ServiceRegistry.FirstRecordKept` | configuration/rpc.go:178-200 | the record of a new service is ever after the one of the first call that named it |
| `ServiceRegistry.NeverUpdatedIff` | api/configuration/api.go:164-191 | no client run is ever answered UPDATED if and only if both kinds of record start under the same names |
| `ServiceRegistry.OneRegisterPerName` | api/configuration/api.go:164-191 | in client runs a name gets one REGISTER event, at its first registration, and NOOP events after it |
| `ServiceRegistry.ListenersAgreeWithStore` | api/configuration/api.go:207-260 | what a listener learns from a REGISTER event is what the service answers ever after, except for the group |
| `Achievements.GroupRows` | achievements/data.go:160-192 | the loop, which mutates shared achievement objects, leaves one object a name, showing the groups of the table |
| `Achievements.AddOne` | achievements/data.go:276-302 | one iteration of the cache loop changes only the achievement of the record's name |
| `Achievements.GroupRecords` | achievements/data.go:253-308 | the cache loop over all batches depends only on the concatenation of the batches |
| `Achievements.TableGrouped` | achievements/data.go:184-192 | the table's groups hold, by name, exactly the levels of their rows |
| `Achievements.CacheGrouped` | achievements/data.go:276-302 | so do the groups of any scan |
| `Achievements.TableRows` | achievements/data.go:184-192 | the first row of a name gives id and category, and the last row of a level its payload |
| `Achievements.CacheRecords` | achievements/data.go:276-302 | from the cache the first record gives the category, and the last record of a level its payload |
| `Achievements.CacheEqualsTableIff` | achievements/data.go:184-306 | every order, batching and repetition of the scan gives the table's groups if and only if names have one category, levels one payload, and first rows the smallest id |
| `Achievements.SortedRowsAreFirstIsLeast` | achievements/data.go:184-188 | rows sorted by id are such rows |
| `Achievements.CachedListEqualsTableList` | achievements/data.go:194-310 | then the id-sorted list from the cache is the one from the table |
| `AchievementLadder.GetLevelForProgress` | achievements/data.go:127-142 | in any iteration order, the highest-numbered level whose threshold the progress meets |
| `AchievementLadder.GetNextLevel` | achievements/data.go:144-151 | a level of the next number, if there is one |
| `AchievementLadder.Show` | achievements/event.go:66-118 | the numbers written for one achievement, from those two lookups |
| `AchievementLadder.OrderDoesNotMatter` | achievements/data.go:127-151 | for grouped achievements what is shown does not depend on iteration order |
| `AchievementLadder.LadderShown` | achievements/event.go:66-118 | with k of n thresholds met, level min(n, k + 1) is shown, between thresholds k and k + 1 and with the next level's reward, and achieved holds exactly when k = n > 0 |
| `AchievementLadder.ShownMonotone` | achievements/event.go:66-118 | level, threshold and achieved flag never go back as progress grows |
| `Ranks.AssignColumn` | permission/data.go:144-200 | the switch of both parsers sets just the field of its column, and keeps it on parse failure |
| `Ranks.RankFromQueryResult` | permission/data.go:131-201 | the loop over a row, and the hash the row is cached in |
| `Ranks.RankFromCache` | permission/data.go:218-287 | in any iteration order of the hash, the rank that its columns stand for |
| `Ranks.AssignStep` | permission/data.go:144-200 | assigning one more column to the rank of some columns gives the rank of all of them |
| `Ranks.ColumnNames` | permission/data.go:144-200 | the switch recognises each column, and no two columns set the same field |
| `Ranks.NamedColumns` | permission/data.go:131-190 | each of the twelve named columns sets its field, and fields without a usable column are 0, empty, false or, for the four amounts, 1 |
| `Ranks.OtherColumns` | permission/data.go:190-200 | any other column is a permission if and only if it parses and starts with acc_ or cmd_, and a variable if and only if it starts with neither |
| `Ranks.CachedRankIsRowRank` | permission/data.go:131-287 | a row with distinct columns and its cached hash parse to the same rank, even over an older version of the hash |
| `Ranks.HashHitIsRankPermissionIff` | permission/data.go:441-449 | a hash hit answers the rank's setting for every hash if and only if the key is none of the twelve named columns and starts with acc_ or cmd_ |
| `Ranks.GetPermission` | permission/data.go:441-467 | with a hash that agrees with the row, the answer is the row's |
| `SubscriptionCache.KeyTextInjective` | subscription/data.go:240-249 | different Redis keys are different strings, whatever type names and numbers |
| `SubscriptionCache.KeyFormats` | subscription/data.go:240-249 | an example of each key |
| `SubscriptionCache.WriteThrough` | subscription/data.go:401-439 | writing a row of an indexed id to its hash and the table keeps every index entry exact |
| `SubscriptionLoads.QueueCommands` | subscription/data.go:229-254 | the commands that goroutines scheduled in any way, and stopped at any point, have queued |
| `SubscriptionLoads.HashAfter` | subscription/data.go:239-256 | after any part of a load, a hash holds the new row if and only if its goroutine had queued its first command, and is as before otherwise |
| `SubscriptionLoads.EntryAfter` | subscription/data.go:239-256 | likewise for the index entries and the second commands |
| `SubscriptionLoads.TypeListed` | subscription/data.go:243-251 | the index of each type gives a row the number of rows of the type entered before it, and no entry is overwritten later in the load |
| `SubscriptionLoads.CompleteIff` | subscription/data.go:239-256 | every goroutine has queued its commands if and only if the executed pipeline holds three for each row |
| `SubscriptionLoads.CompleteLoadCoherentIff` | subscription/data.go:218-262 | if every goroutine queues its commands before the pipeline is executed, the user's index entries are exact if and only if the rows read are still current, whatever was cached before |
| `SubscriptionLoads.AllLoadsCoherentIff` | subscription/data.go:218-262 | from a coherent cache, every load, however little of it is queued in time, leaves the user's entries exact if and only if its rows are current and none of its hashes is named by another row's entry |
| `SubscriptionLoads.LoadLeavesOthers` | subscription/data.go:218-262 | no part of a load changes whether another user's cache is coherent or complete |
| `SubscriptionLoads.CompleteLoadFull` | subscription/data.go:218-262 | a load that is queued completely leaves a complete cache |
| `SubscriptionLoads.ScanSelectsIff` | subscription/data.go:181-216 | from a complete and coherent cache a scan gives the user's rows, each once, if and only if it repeats no key |
| `SubscriptionLoads.NothingHiddenIff` | subscription/data.go:218-270 | with nothing cached before, no load, however little of it is queued in time, makes later list requests miss a row if and only if the user has at most one |
| `Subscriptions.StepCoherent` | subscription/data.go:181-439 | any request with the cache changes the table as without, keeps the cache coherent, and is answered as by the table, lists from the cache apart, if its load is complete or does not clash |
| `Subscriptions.StepFull` | subscription/data.go:181-439 | with complete caches and completely queued loads, every answer is the table's if and only if it is not a list from a scan that repeats a key, and caches stay complete |
| `Subscriptions.RepeatedHashRepeatsRow` | subscription/data.go:186-210 | one cached subscription whose key a scan returns twice is listed twice, which no selection does |
| `Subscriptions.RunCoherent` | subscription/data.go:181-439 | so for every sequential run of requests and loads |
| `Subscriptions.RunFull` | subscription/data.go:181-439 | in every run with complete caches and completely queued loads every answer, lists included, is the table's if and only if it is not a list from a scan that repeats a key |
| `Subscriptions.RunAnswers` | subscription/data.go:272-439 | in such runs every single-row answer is the first row with the amounts added and the last activity, and a club check is yes if and only if some first row has the user and type and is active by then |
| `Subscriptions.RunLists` | subscription/data.go:181-270 | in runs with complete caches and completely queued loads a list from a scan without repeats has each of the user's first rows once, with its amounts and last activity |
| `Subscriptions.LoadCaches` | subscription/data.go:218-270 | a complete load caches each row under its number and indexes it, so that the next list is served from the cache |
| `Subscriptions.DanglingEntry` | subscription/data.go:290-309 | an index entry without its hash reads as a subscription of zeros |
| `Subscriptions.FixedOrderIsSafe` | subscription/data.go:218-262 | if loads always get a user's rows in the same order, no load of a run clashes, however little of it is queued |
| `Subscriptions.DurationsAddUp` | subscription/data.go:401-439 | with the table alone, a duration is the initial one plus the sum of the amounts, and nothing else but activity changes |
| `Subscriptions.RunDurations` | subscription/data.go:401-439 | with the cache in front likewise, in every run in which each load is complete or does not clash, and each extension answers the sum so far |
| `Subscriptions.Database.GetSubscription` | subscription/data.go:290-309 | with a coherent cache it answers what the table holds |
| `Subscriptions.Database.SetSubscriptionActive` | subscription/data.go:401-416 | the new table and hashes of one call, and its answer, whatever the cache holds |
| `Subscriptions.Database.AddDuration` | subscription/data.go:418-439 | the same for adding to a duration, which writes back the sum it computed from what the cache answered |
| `Subscriptions.Database.ExecPipe` | subscription/data.go:256 | sends the queued commands in order |
| `Subscriptions.Database.LoadUserSubscriptions` | subscription/data.go:218-262 | caches whatever was queued in time, and answers the rows read |
| `Subscriptions.Database.GetUserSubscriptionsFromCache` | subscription/data.go:181-216 | answers the scanned hashes |
| `Subscriptions.Database.GetSubscriptionsForUser` | subscription/data.go:264-270 | answers from the cache if the user's first hash exists, and loads otherwise |
| `Subscriptions.Database.Serve` | subscription/data.go:457-483 | one request of any kind, answered from start to end: the new state and the answer that the step of a run has |
| `ClubTime.CalculatePastTimeAsHC` | catalog/data.go:252-258 | the loop gives the sum over all subscriptions of duration minus remaining time, cut off at zero, in 32-bit arithmetic, each at its own reading of the clock |
| `ClubTime.CalculatePastTime` | subscription/composers.go:13-19 | the loop gives the sum of duration minus remaining time, not cut off, each at its own reading of the clock |
| `ClubTime.CatalogCountsElapsedIff` | catalog/data.go:248-258 | a subscription counts with the part that has passed if and only if its end fits 32 bits or has passed |
| `ClubTime.CatalogPastIsElapsed` | catalog/data.go:252-258 | past time is the time that has passed in all subscriptions |
| `ClubTime.PastTimeBounds` | catalog/data.go:252-258 | past time lies between 0 and the sum of the durations |
| `ClubTime.PastTimeMonotone` | catalog/data.go:252-258 | past time never decreases when each reading of the clock is later |
| `ClubTime.ServicesAgreeIff` | subscription/composers.go:9-19 | the two services, reading the clock alike, agree on past time if and only if no subscription has expired |
| `ClubTime.ServicePastIsSinceStart` | subscription/composers.go:13-19 | the subscription service's past time is the time since each start, summed, expired or not |
| `ClubTime.GiftsEarned` | catalog/data.go:260-262 | more than g gifts exactly when more than g periods of 2678400 seconds have passed |
| `ClubTime.NextGift` | catalog/data.go:264-266 | the time to the next gift is when one more second earns it, and less than a period |
| `ClubTime.ClubGifts` | catalog/data.go:319-324 | the days shown to the next gift lie in 0 to 30 and are those of the time until one more second earns a gift; the days as a member bracket past time; unclaimed gifts exceed g exactly when more than g periods beyond the claimed ones have passed |
| `ClubTime.GiftsOverTime` | catalog/data.go:319-324 | days as a member and unclaimed gifts never go down over time |
| `ClubTime.GetCurrentSubscription` | subscription/composers.go:25-32 | the first subscription of the type that is active and not over when it is looked at, or none if there is none |
| `ClubTime.CalculateDaysAndMinutes` | subscription/composers.go:40-48 | minutes bracket the time left; days do so if and only if it is not within the last day, which is shown as one |
| `ClubTime.GetSubscriptionTime` | subscription/composers.go:50-57 | nothing is shown without a valid subscription; otherwise the time left of the current one at one more reading of the clock, with at least a day and a minute exactly if any is left by then |

## Left out

- Redis, MySQL, gRPC, WebSocket, protobuf and uuid internals: each command is its abstract effect on maps, sets, or a stream
  with a pending list. XCLAIM follows Redis 7, which removes trimmed entries from the pending list.
- Failing Redis and SQL calls, where a result says nothing of them; in the event protocol replies may be lost.
- `Subscriptions.RunCoherent`: requests to the subscription service that overlap. A run serves them one after the other, with
  the background loads of `GetSubscription` and `AddDuration` as requests of their own, which see the current rows; loads of
  older rows are covered by `SubscriptionLoads.AllLoadsCoherentIff` and `SubscriptionLoads.CompleteLoadCoherentIff`.
- `SessionManager.SendPanicsIff`: a send is the moment its packet is taken or the panic happens; waiting for room in a full
  channel, and the race on reading `sessions`, are not modelled.
- What else two goroutines can do to a pipeline they share: commands are neither lost nor torn when queued at once.
- The request and answer channels between the subscription service's handlers and its `Listen`, which are of the kind that
  `LoginChannels` models, and the list of a user's subscriptions of one type.
- `EventStreamRecovery.ClaimAndHandle`: as a method it runs without steps of others in between; `EventStreamMeasure.RecoveryMeasure`
  is about runs with them.
- `EventStreamRecovery.Recover`: runs alone likewise; its scan, claim and acknowledgement with others in between are steps of
  `EventStreamMeasure.RecoveryMeasure`.
- `EventStreamRecovery.TickAndRecover`: runs alone likewise; see `EventStreamMeasure.RecoveryMeasure`.
- `EventStreamRecovery.RecoverInterval`: runs alone likewise; see `EventStreamMeasure.RecoveryMeasure`.
- `EventStreamReading.ReadOnce`: runs alone likewise; what holds with others in between is in `EventStreamFates` and
  `EventStreamDelivery`.
- `EventStreamMeasure.RecoveryMeasure`: without new reads, crashes, lost replies and the work of other consumers, which put
  entries back into the pending list or keep them there.
- Go's slices may be extended up to their capacity; nothing modelled does so: the readers of packets also cut off what they
  read, which panics past the length. Pointers to handler instances are modelled by address numbers that are never reused.
- Panicking handlers in `LocalBus.Publish`, which end the process.
- Machine integers are unbounded where the ranges involved keep Go's 64-bit ones from overflowing. Quotients of `float64` are
  integer divisions.
- How cached achievement records are fetched, and the lookups of single achievements by name or id.
- The scan of all configured services, and the database loaders of the catalog.
- The order in which a slice sort leaves achievements of equal id; ids are unique.
- Packet contents other than the topics packet, and reading frames from the socket.
- Friends, guilds, currencies and rooms: they add only easy members.
- `ServiceRegistry.Server.RegisterService`: the concurrent stores and the publication are done one after the other, as they touch
  different keys; events carry one of three types, and values are keyed by name constants rather than strings.
- `Wire.Write`: errors of the connection, which end the loop early, the close message, and what the process does on a panic.
