# MagicOnion in Dafny

MagicOnion is an RPC framework over gRPC. This project models its stateful core and proves what that core promises.

* **The StreamingHub session.** `MessagePack` and `Frames` are the byte-level codec of the frames; `HubClient`,
  `HubServer`, `HubContext` and `ResponseQueue` are the client, the server's loop, its per-call context and the
  per-connection queue, each as an object whose methods are tied to functions on values; `Session` joins client, request lock, request stream,
  server, queue, response stream and both ways of disposal into one machine of twenty-two steps. `SessionHistory` reads
  off a schedule what was called, what each handler yielded and what was broadcast; `SessionSafety` has the inductive
  invariant and the theorems over all schedules, which compare the clients' futures with that history; `SessionProgress`
  has the measure and the theorem that every schedule of a fault-free connection ends with every call answered.
* **Groups.** `GroupWrites` compares the write loops of the two in-memory groups, `GroupRegistry` is the machine of
  joins, leaves and disconnects, `GroupObjects` holds the groups, repositories and loops as objects, `JoinLimit` and
  `MemberCounters` treat the places where a check and its effect are separate steps, and `RedisGroups` proves that many
  servers behind Redis are one group.
* **The client generator.** `TypeInfo` has the type terms and shows that a printed name determines its type;
  `Collector` decides which formatters are registered under which conditions; `Conditions` evaluates the text of an `#if`;
  `CodeWriter`, `HubClientGenerator` and `ResolverGenerator` emit lines with `#if` and show what a preprocessor makes of
  them and what client or look-up the compiled text is.
* **Two supporting algorithms.** `BufferWriter` is the pooled growable buffer, `NuGet` the search of a package graph.

Threads are modelled as interleaved atomic steps; an object's methods run to their end. Where a lemma speaks of every
run, a schedule is any sequence of steps, and steps that are not enabled when their turn comes are skipped.

Places where the code does not do what one might expect are stated with the exact condition or a concrete run:
`FutureLostIff`, `LateCallStranded`, `LeaveRegistryIff` with `StaleLeaveSplitsRoom`,
`EnterRegistryIff` with `OvertakenJoinSplitsRoom`, `StaysGoneIff` with `LateJoinStays`, `RawWriteIff`,
`DictionaryPartitionIff`, `CounterExactIff` with `LateDeleteForgets`, `ExceededIff` with `LimitExceeded`,
`DirectivesHoldIff`, and `AlwaysCompleteIff` with `SplitLayoutUnsafe`.

## Model

| member | source | states |
|---|---|---|
| `MessagePack.ReadInt32Any` | src/MagicOnion.Server/Hubs/StreamingHub.cs:173-198 | an Int32 in any of the ten integer families is read back, and exactly its bytes are consumed |
| `MessagePack.ReadInt32Only` | src/MagicOnion.Server/Hubs/StreamingHub.cs:173-198 | whatever is accepted as an Int32 is a legal encoding of the value reported |
| `MessagePack.ReadLengthAny` | src/MagicOnion.Client/StreamingHubClientBase.cs:191-256 | an array, string or binary length in any legal family is read back |
| `MessagePack.ReadStringAny` | src/MagicOnion.Client/StreamingHubClientBase.cs:217-222 | null, and a string whose length is in any legal family, read back, and exactly their bytes are consumed |
| `MessagePack.ReadStringOnly` | src/MagicOnion.Client/StreamingHubClientBase.cs:217-222 | whatever is accepted as a string or null is a legal encoding of it |
| `MessagePack.WrittenIntegers` | src/MagicOnion.Client/StreamingHubClientBase.cs:262-311 | the bytes of every written Int32, in the shortest family or always in five bytes |
| `MessagePack.WrittenLengths` | src/MagicOnion.Client/StreamingHubClientBase.cs:262-311 | the bytes that go before an array, a string and binary data |
| `Frames.FetchVoidRequest` | src/MagicOnion.Server/Hubs/StreamingHub.cs:173-198 | a void request, however its header is encoded, is read as void, with the payload from its first byte |
| `Frames.FetchRequest` | src/MagicOnion.Server/Hubs/StreamingHub.cs:173-198 | the same for a request with both its ids |
| `Frames.FetchHeaderOnly` | src/MagicOnion.Server/Hubs/StreamingHub.cs:173-198 | what the server accepts is a legal encoding of just the kind, ids and payload it reports |
| `Frames.ReadServerFrameOnly` | src/MagicOnion.Client/StreamingHubClientBase.cs:191-256 | what the client takes for a response or a broadcast is a legal encoding of just that |
| `Frames.ReadErrorFrame` | src/MagicOnion.Client/StreamingHubClientBase.cs:211-236 | an error frame, however its header, numbers and strings are encoded, is read as such |
| `Frames.ReadErrorFrameOnly` | src/MagicOnion.Client/StreamingHubClientBase.cs:211-236 | what the client takes for an error is a legal encoding of just that message id, status, detail and message |
| `Frames.RequestsRoundTrip` | src/MagicOnion.Client/StreamingHubClientBase.cs:262-311 | the server decodes void requests and requests to what the client encoded |
| `Frames.ServerFramesRoundTrip` | src/MagicOnion.Server/Hubs/StreamingHubContext.cs:51-126 | the client decodes responses, errors, broadcasts and the marker to what the server encoded |
| `Frames.AddressOfServerFrame` | src/MagicOnion.Client/StreamingHubClientBase.cs:195-222 | looking at the id first agrees with reading the whole frame |
| `BufferWriter.ArrayPoolBufferWriter.Prepare` | src/MagicOnion.Shared/Utils/ArrayPoolBufferWriter.cs:26-33 | afterwards nothing is written; one array is rented unless one is kept |
| `BufferWriter.ArrayPoolBufferWriter.CheckAndResizeBuffer` | src/MagicOnion.Shared/Utils/ArrayPoolBufferWriter.cs:62-87 | contents survive, the free part reaches the hint, an old array is returned for each new one, bytes copied stay within the capacity; when it refuses |
| `BufferWriter.ArrayPoolBufferWriter.Advance` | src/MagicOnion.Shared/Utils/ArrayPoolBufferWriter.cs:44-48 | appends exactly the bytes filled in; a negative count is refused |
| `BufferWriter.ArrayPoolBufferWriter.Dispose` | src/MagicOnion.Shared/Utils/ArrayPoolBufferWriter.cs:89-98 | the array is returned once, a second call does nothing |
| `BufferWriter.ArrayPoolBufferWriter.Append` | src/MagicOnion.Shared/Utils/ArrayPoolBufferWriter.cs:44-87 | reserve, fill and advance append the chunk, or change nothing when the reservation passes half of the largest array |
| `BufferWriter.ArrayPoolBufferWriter.Build` | src/MagicOnion.Shared/Utils/ArrayPoolBufferWriter.cs:26-98 | any legal run yields the concatenation and leaves the rented arrays as they were; it fails only by size |
| `HubContext.BuildRequest` | src/MagicOnion.Client/StreamingHubClientBase.cs:299-311 | builds the request frame in the pooled buffer, unless it is about a gigabyte |
| `HubContext.BuildVoidRequest` | src/MagicOnion.Client/StreamingHubClientBase.cs:262-273 | builds the void request frame |
| `HubContext.BuildBroadcast` | src/MagicOnion.Server/Hubs/Group.ImmutableArray.cs:353-364 | builds the broadcast frame of the in-memory groups |
| `HubContext.BuildMarkerResponse` | src/MagicOnion.Server/Hubs/StreamingHub.cs:149-165 | builds the marker |
| `HubContext.StreamingHubContext.WriteResponseMessage` | src/MagicOnion.Server/Hubs/StreamingHubContext.cs:73-101 | queues one response frame with this invocation's ids, nothing for a void call |
| `HubContext.StreamingHubContext.WriteResponseMessageNil` | src/MagicOnion.Server/Hubs/StreamingHubContext.cs:42-71 | the same with a nil payload |
| `HubContext.StreamingHubContext.WriteErrorMessage` | src/MagicOnion.Server/Hubs/StreamingHubContext.cs:103-132 | queues one error frame; the exception text only when the option asks for it |
| `HubServer.StreamingHub.Answer` | src/MagicOnion.Server/Hubs/StreamingHub.cs:255-274 | one frame for a call: the result, or the error frame of its exception |
| `HubServer.StreamingHub.HandleMessageAsync` | src/MagicOnion.Server/Hubs/StreamingHub.cs:137-281 | whatever handlers, also those of earlier void requests, which nobody awaits, join, leave and send meanwhile, answers request after request in order behind what was sent, and stops exactly at one that ends the connection |
| `HubServer.StreamingHub.Connect` | src/MagicOnion.Server/Hubs/StreamingHub.cs:93-135 | however the user's first hook and the loop end, the queue is completed; when the last hook returns, the connection is in no group it ever joined and in no registered one; when it throws, the connection stays in all groups it joined, if it never left one |
| `HubServer.StreamingHub.CleanUp` | src/MagicOnion.Server/Hubs/StreamingHub.cs:127-132 | the finally block: a throwing hook keeps it from leaving any group, and one that only sends leaves the groups untouched |
| `HubServer.AnswerIsInvocation` | src/MagicOnion.Server/Hubs/StreamingHub.cs:200-280 | each answer carries, read as the client reads it, how this request's handler ended: its value, or status, detail and, under the option, text of its exception, with the request's ids; a void request has none |
| `ResponseQueue.RunInvariant` | src/MagicOnion.Server/Internal/QueuedResponseWriter.cs:27-58 | every schedule keeps: accepted writes are attempted, in hand, given up or queued, in that order |
| `ResponseQueue.AttemptsArePrefix` | src/MagicOnion.Server/Internal/QueuedResponseWriter.cs:32-53 | every schedule: attempted writes are a prefix of the accepted ones, at most one outstanding |
| `ResponseQueue.NothingLostWhileConnected` | src/MagicOnion.Server/Internal/QueuedResponseWriter.cs:32-53 | before the disconnect nothing accepted is passed over |
| `ResponseQueue.FewAttemptsAfterDisconnect` | src/MagicOnion.Server/Internal/QueuedResponseWriter.cs:36-45 | after the disconnect only a write whose test had passed is still attempted |
| `ResponseQueue.ConsumerTerminates` | src/MagicOnion.Server/Internal/QueuedResponseWriter.cs:32-58 | once completed, the consumer stops within five of its steps, however much is queued |
| `ResponseQueue.LaterWritesDropped` | src/MagicOnion.Server/ServiceContext.Streaming.cs:68-77 | once completed, writes are dropped, the consumer is never blocked and no step delays it |
| `ResponseQueue.QueuedResponseWriter.ConsumeQueue` | src/MagicOnion.Server/Internal/QueuedResponseWriter.cs:32-53 | the nested loops write everything queued in order while connected, and nothing after the disconnect |
| `ResponseQueue.StreamingServiceContext.QueueResponseStreamWrite` | src/MagicOnion.Server/ServiceContext.Streaming.cs:68-71 | creates the queue on first use and writes to it |
| `ResponseQueue.StreamingServiceContext.CompleteStreamingHub` | src/MagicOnion.Server/ServiceContext.Streaming.cs:73-77 | sets the flag, then completes the channel |
| `HubClient.SameMessageId` | src/MagicOnion.Client/StreamingHubClientBase.cs:288-297 | two calls share an id exactly when they are a multiple of 2^32 calls apart |
| `HubClient.VoidMessageId` | src/MagicOnion.Server/Hubs/StreamingHub.cs:203-238 | a call is taken for a void call exactly when its number is 2^32 - 2 modulo 2^32 |
| `HubClient.MessageIdsUsable` | src/MagicOnion.Client/StreamingHubClientBase.cs:40-40 | the first 2^32 - 2 ids are distinct and none is -1; the next one is -1 |
| `HubClient.ConsumeSetsOnce` | src/MagicOnion.Client/StreamingHubClientBase.cs:191-256 | on any bytes whatever, only the addressed future can change, and a set future never does |
| `HubClient.FutureLostIff` | src/MagicOnion.Client/StreamingHubClientBase.cs:198-236 | exactly when a frame takes a pending future out of the table without completing it |
| `HubClient.AnswerCompletes` | src/MagicOnion.Client/StreamingHubClientBase.cs:198-236 | a response in any legal encoding completes the call with its payload, as the method's result type |
| `HubClient.ErrorCompletes` | src/MagicOnion.Client/StreamingHubClientBase.cs:211-236 | an error frame in any legal encoding fails the call with its status and detail, a null one read as empty, and with its message exactly when that has a byte outside white space |
| `HubClient.AnswerDelivered` | src/MagicOnion.Client/StreamingHubClientBase.cs:191-236 | a response or error completes its call and takes it out of the table; nothing else changes |
| `HubClient.WhiteSpaceIff` | src/MagicOnion.Client/StreamingHubClientBase.cs:225-232 | the white-space test is right for every byte string: no byte is outside every encoded white-space character |
| `HubClient.BroadcastDelivered` | src/MagicOnion.Client/StreamingHubClientBase.cs:238-255 | a broadcast is handed on with its method id and payload, and nothing else changes |
| `HubClient.OthersNotDelivered` | src/MagicOnion.Client/StreamingHubClientBase.cs:191-256 | no other frame is |
| `HubClient.MarkerIgnored` | src/MagicOnion.Server/Hubs/StreamingHub.cs:149-165 | the marker resolves no future |
| `HubClient.StreamingHubClient.WriteMessageWithResponse` | src/MagicOnion.Client/StreamingHubClientBase.cs:284-320 | refuses when disposed; otherwise takes the next wrapped id, registers the future and frames the request |
| `HubClient.StreamingHubClient.ConsumeFrame` | src/MagicOnion.Client/StreamingHubClientBase.cs:191-256 | the branches of the consumer compute the specified new client |
| `HubClient.StreamingHubClient.OnResponseEvent` | src/MagicOnion.GeneratorCore/CodeGen/StaticStreamingHubClientGenerator.cs:243-269 | the generated switch: no default case, and a cast of the completion source |
| `HubClient.ConsumeAllSetsOnce` | src/MagicOnion.Client/StreamingHubClientBase.cs:120-147 | over any frames, malformed or repeated, a future keeps the first outcome it is given |
| `HubClient.StreamingHubClient.StartSubscribe` | src/MagicOnion.Client/StreamingHubClientBase.cs:120-185 | consumes every frame in order, then disposes |
| `HubClient.StreamingHubClient.DisposeAsyncCore` | src/MagicOnion.Client/StreamingHubClientBase.cs:340-398 | cancels what is pending, only the first time, and only once connected |
| `HubClient.StreamingHubClient.CancelPending` | src/MagicOnion.Client/StreamingHubClientBase.cs:379-398 | the clean-up loop cancels exactly the pending futures of the table |
| `HubClient.SubscriptionEnds` | src/MagicOnion.Client/StreamingHubClientBase.cs:120-185 | after the frames and the clean-up a completed call keeps its outcome, one in the table is cancelled, and just those stay pending that a frame took out of the table without completing them |
| `SessionHistory.RunShows` | src/MagicOnion.Server/Hubs/StreamingHub.cs:200-280 | every schedule: calls are those made, each invocation's frames carry what its handler yielded, in order, and what the client received is the broadcasts it consumed |
| `SessionSafety.StepInvariant` | src/MagicOnion.Client/StreamingHubClientBase.cs:120-185 | each of the twenty-two steps keeps the invariant |
| `SessionSafety.RunInvariant` | src/MagicOnion.Server/Hubs/StreamingHub.cs:93-135 | every schedule keeps the invariant, up to 2^32 - 2 calls |
| `SessionSafety.AnswersMatchCalls` | src/MagicOnion.Client/StreamingHubClientBase.cs:191-256 | a completed future delivers what the handler of exactly this call's request, run once for its method id, argument and message id, first yielded: the value as the method's result type, or the parts of the error |
| `SessionSafety.VoidIsFired` | src/MagicOnion.Server/Hubs/StreamingHub.cs:203-238 | the handler of a void request runs for a method and argument that were fired |
| `SessionSafety.BroadcastsInOrder` | src/MagicOnion.Client/StreamingHubClientBase.cs:238-255 | the receiver has been handed a prefix of what was broadcast, in order and each once |
| `SessionSafety.NothingAfterTheEnd` | src/MagicOnion.Client/StreamingHubClientBase.cs:335-398 | after the request stream is closed or the connection gone nothing is sent, after it is gone nothing arrives, after the server's loop has ended, also at a malformed or unknown request, no handler is run, and after a disposal only calls that had passed the check are made |
| `SessionSafety.ExclusiveWritesServedOnce` | src/MagicOnion.Shared/AsyncLock.cs:15-42 | one writer at a time holds the lock, and no request is served twice |
| `SessionSafety.NoFutureLost` | src/MagicOnion.Client/StreamingHubClientBase.cs:284-320 | a pending future is in the table under its own id |
| `SessionSafety.TerminalForEver` | src/MagicOnion.Client/StreamingHubClientBase.cs:198-236 | a set future is never changed again, by any schedule |
| `SessionSafety.CleanupOnce` | src/MagicOnion.Client/StreamingHubClientBase.cs:335-398 | clean-up runs at most once, nothing is consumed after it begins, and afterwards every future registered before it is terminal |
| `SessionSafety.StrandedForEver` | src/MagicOnion.Client/StreamingHubClientBase.cs:322-328 | a call registered after the clean-up is completed by no schedule |
| `SessionSafety.LateCallStranded` | src/MagicOnion.Client/StreamingHubClientBase.cs:284-297 | such a schedule exists |
| `SessionProgress.WorkDecreases` | src/MagicOnion.Server/Hubs/StreamingHub.cs:239-279 | every carrying step strictly decreases the work left |
| `SessionProgress.QuietMeansDone` | src/MagicOnion.Client/StreamingHubClientBase.cs:126-147 | with no carrying step enabled, no future is pending |
| `SessionProgress.EverySchedule` | src/MagicOnion.Server/Internal/QueuedResponseWriter.cs:32-53 | no fault-free schedule is longer than the work at its start, and one that cannot be extended has completed every future |
| `SessionProgress.EveryCallAnswered` | src/MagicOnion.Client/StreamingHubClientBase.cs:313-320 | from any reachable fault-free state, every call ends with what the handler of exactly its request first yielded |
| `SessionProgress.EveryBroadcastReceived` | src/MagicOnion.Server/Internal/QueuedResponseWriter.cs:32-53 | and the receiver has been handed everything that was broadcast, in order |
| `GroupWrites.DeliveredTo` | src/MagicOnion.Server/Hubs/Group.ImmutableArray.cs:135-154 | a connection gets as many copies as it occurs among the targets, behind what it had |
| `GroupWrites.ArrayTargetsCount` | src/MagicOnion.Server/Hubs/Group.ImmutableArray.cs:135-351 | how many copies each member of an array group gets, for all seven writes |
| `GroupWrites.DictionaryTargetsCount` | src/MagicOnion.Server/Hubs/Group.ConcurrentDictionary.cs:135-324 | the same for the dictionary group, in whatever order its keys are seen |
| `GroupWrites.ToAndExceptPartition` | src/MagicOnion.Server/Hubs/Group.ImmutableArray.cs:181-270 | for every id list and every array of members, WriteTo and WriteExcept partition WriteAll |
| `GroupWrites.DictionaryPartitionIff` | src/MagicOnion.Server/Hubs/Group.ConcurrentDictionary.cs:179-247 | for the dictionary group they do exactly when no member is listed twice |
| `GroupWrites.RawWriteIff` | src/MagicOnion.Server/Hubs/Group.ImmutableArray.cs:330-338 | the array group's raw write reaches the listed members exactly when the list names one connection |
| `GroupWrites.GroupsEquivalent` | src/MagicOnion.Server/Hubs/Group.ConcurrentDictionary.cs:103-292 | over runs without double join or repeated id, raw writes to several ids excepted, both groups queue the same frames in the same order |
| `GroupWrites.SameWriteCount` | src/MagicOnion.Server/Hubs/Group.ConcurrentDictionary.cs:135-292 | and report the same number of writes |
| `GroupRegistry.LeaveRegistryIff` | src/MagicOnion.Server/Hubs/Group.ConcurrentDictionary.cs:113-131 | a leave breaks the registry exactly when it is made on an empty dictionary group whose name a newer group with members has |
| `GroupRegistry.EnterRegistryIff` | src/MagicOnion.Server/Hubs/Group.cs:54-60 | an add to a group that was looked up before breaks it exactly when the group has lost its name in between |
| `GroupRegistry.StepRegistry` | src/MagicOnion.Server/Hubs/Group.cs:54-110 | every step keeps "an object with members is registered, a registered one is empty only while a join is about to add, storage keys are members" exactly when its guard holds |
| `GroupRegistry.SafeRegistry` | src/MagicOnion.Server/Hubs/Group.cs:54-153 | so it holds in every run of either group in which no step breaks its guard |
| `GroupRegistry.ArrayRegistry` | src/MagicOnion.Server/Hubs/Group.ImmutableArray.cs:34-131 | in particular in every run of array groups in which no join is overtaken between look-up, add and storage, with redundant, stale and late calls of every kind |
| `GroupRegistry.OneObjectPerName` | src/MagicOnion.Server/Hubs/Group.cs:54-60 | then members of one name share one group object |
| `GroupRegistry.JoinEnters` | src/MagicOnion.Server/Hubs/Group.cs:54-110 | a join puts the connection into the object registered under the name, or a new one, with a storage key if it has data, and is remembered |
| `GroupRegistry.KeysOfOthers` | src/MagicOnion.Server/Hubs/Group.ImmutableArray.cs:108-131 | storage keys of other connections survive every step; a connection's own come with its data and go with its leaves |
| `GroupRegistry.DictionaryRegistryOfMembers` | src/MagicOnion.Server/Hubs/Group.ConcurrentDictionary.cs:103-131 | and of dictionary groups, when besides only current members leave |
| `GroupRegistry.StaleLeaveSplitsRoom` | src/MagicOnion.Server/Hubs/Group.ConcurrentDictionary.cs:123-128 | a run in which a redundant leave splits a room in two |
| `GroupRegistry.OvertakenJoinSplitsRoom` | src/MagicOnion.Server/Hubs/Group.cs:56-57 | a run of either group in which the last member leaves between look-up and add, and the room is split in two |
| `GroupRegistry.RememberedRun` | src/MagicOnion.Server/Hubs/Group.cs:36-60 | every run, late and overtaken joins included: a connection occurs in a group object at most as often as it remembers joining |
| `GroupRegistry.DisconnectedIsGone` | src/MagicOnion.Server/Hubs/Group.cs:147-153 | once its disconnect loop has finished, in whatever order it took the groups, a connection is in a group at most as often as it joined too late for the loop, and in none without such joins |
| `GroupRegistry.StaysGoneIff` | src/MagicOnion.Server/Hubs/Group.cs:147-153 | either group, after the loop: unless its handlers make it leave an object, a connection stays in it if it is in it and comes into it exactly by joining again; so it stays gone just as long as no handler still running joins |
| `GroupRegistry.ArrayDisconnectIff` | src/MagicOnion.Server/Hubs/Group.cs:147-153 | array group: if it never left by itself, it is after the loop in just the groups it joined too late |
| `GroupRegistry.LateJoinStays` | src/MagicOnion.Server/Hubs/StreamingHubContext.cs:42-78 | such a run: the handler of a void request, which nobody awaits, joins after the loop |
| `GroupRegistry.DisconnectProceeds` | src/MagicOnion.Server/Hubs/StreamingHub.cs:127-132 | the loop can always go on, with any of the groups that are left |
| `GroupRegistry.JoinProceeds` | src/MagicOnion.Server/Hubs/Group.cs:54-60 | and so can every join, before and after the disconnect |
| `GroupObjects.ImmutableArrayGroup.AddAsync` | src/MagicOnion.Server/Hubs/Group.ImmutableArray.cs:99-106 | appends the connection, even a second time |
| `GroupObjects.ImmutableArrayGroup.RemoveAsync` | src/MagicOnion.Server/Hubs/Group.ImmutableArray.cs:108-131 | removes one occurrence and the storage key; unregisters on becoming empty |
| `GroupObjects.ImmutableArrayGroup.WriteAll` | src/MagicOnion.Server/Hubs/Group.ImmutableArray.cs:135-154 | queues to exactly the specified targets and reports their number |
| `GroupObjects.ImmutableArrayGroup.WriteExceptOne` | src/MagicOnion.Server/Hubs/Group.ImmutableArray.cs:156-179 | the same, without one id |
| `GroupObjects.ImmutableArrayGroup.WriteExcept` | src/MagicOnion.Server/Hubs/Group.ImmutableArray.cs:181-211 | the same, without listed ids |
| `GroupObjects.ImmutableArrayGroup.WriteToOne` | src/MagicOnion.Server/Hubs/Group.ImmutableArray.cs:213-238 | queues to the first member with the id, if any |
| `GroupObjects.ImmutableArrayGroup.WriteTo` | src/MagicOnion.Server/Hubs/Group.ImmutableArray.cs:240-270 | queues to the members that are listed |
| `GroupObjects.ImmutableArrayGroup.WriteExceptRaw` | src/MagicOnion.Server/Hubs/Group.ImmutableArray.cs:272-314 | raw write, without listed ids, null listing nobody |
| `GroupObjects.ImmutableArrayGroup.WriteToRaw` | src/MagicOnion.Server/Hubs/Group.ImmutableArray.cs:316-351 | raw write to members from which no listed id differs |
| `GroupObjects.ConcurrentDictionaryGroup.AddAsync` | src/MagicOnion.Server/Hubs/Group.ConcurrentDictionary.cs:103-110 | adds a new key and counts it |
| `GroupObjects.ConcurrentDictionaryGroup.RemoveAsync` | src/MagicOnion.Server/Hubs/Group.ConcurrentDictionary.cs:112-131 | removes and counts down; unregisters whenever it is empty afterwards |
| `GroupObjects.ConcurrentDictionaryGroup.Send` | src/MagicOnion.Server/Hubs/Group.ConcurrentDictionary.cs:135-324 | the seven writes queue to exactly the specified targets and report their number |
| `GroupObjects.ImmutableArrayGroupRepository.GetOrAdd` | src/MagicOnion.Server/Hubs/Group.ImmutableArray.cs:34-52 | the registered group, or a new empty one registered under the name |
| `GroupObjects.HubGroupRepository.constructor` | src/MagicOnion.Server/Hubs/Group.cs:42-46 | a new connection, in no registered group, remembers nothing |
| `GroupObjects.HubGroupRepository.AddAsync` | src/MagicOnion.Server/Hubs/Group.cs:54-60 | joins the registered group and remembers the join |
| `GroupObjects.HubGroupRepository.AddWithData` | src/MagicOnion.Server/Hubs/Group.cs:99-110 | the same, and the connection has a key in the group's storage |
| `GroupObjects.HubGroupRepository.TryAddAsync` | src/MagicOnion.Server/Hubs/Group.cs:65-94 | joins exactly when the group has fewer members than the limit, or is missing and to be created; otherwise nothing changes |
| `GroupObjects.HubGroupRepository.Join` | src/MagicOnion.Server/Hubs/Group.cs:54-60 | no group holds the connection more often than the repository remembers joining it, and a join keeps that |
| `GroupObjects.HubGroupRepository.Leave` | src/MagicOnion.Server/Hubs/Group.ImmutableArray.cs:108-131 | an explicit leave keeps it, too |
| `GroupObjects.HubGroupRepository.DisposeAsync` | src/MagicOnion.Server/Hubs/Group.cs:147-153 | in whatever order the bag is enumerated, afterwards the connection is in none of the groups it remembered and in no registered one |
| `JoinLimit.JoinsWithinLimit` | src/MagicOnion.Server/Hubs/Group.cs:65-94 | every run of either group, the dictionary group's late counter included: members plus joins yet to add are at most limit - 1 + k; one join at a time never exceeds the limit |
| `JoinLimit.LimitExceeded` | src/MagicOnion.Server/Hubs/Group.cs:65-94 | that bound is reached on either group for every limit from one and every k |
| `JoinLimit.ExceededIff` | src/MagicOnion.Server/Hubs/Group.cs:65-94 | whatever the group and the limit, some run exceeds it exactly when two joins can be under way at once |
| `JoinLimit.JoinAloneIff` | src/MagicOnion.Server/Hubs/Group.cs:65-94 | with nothing else under way a join adds one member exactly when the group has fewer than the limit, or is missing and may be created; otherwise it changes nothing |
| `MemberCounters.LengthConserved` | src/MagicOnion.Server/Hubs/Group.ConcurrentDictionary.cs:80-131 | every interleaving: counter plus owed increments minus owed decrements is the member count |
| `MemberCounters.LengthCanBeNegative` | src/MagicOnion.Server/Hubs/Group.ConcurrentDictionary.cs:80-83 | in between, the reported count can be -1 |
| `MemberCounters.StepConserved` | src/MagicOnion.Server.Redis/RedisGroup.cs:84-108 | every step conserves the Redis count, a key deletion exactly when the counter is still zero |
| `MemberCounters.CounterConserved` | src/MagicOnion.Server.Redis/RedisGroup.cs:84-108 | every such interleaving over all servers, with joins overtaking each other, balances counter, members, calls without effect and work in progress |
| `MemberCounters.CounterExactIff` | src/MagicOnion.Server.Redis/RedisGroup.cs:136-139 | with nothing in progress the counter is the member count exactly when joins by members and leaves by non-members balance |
| `MemberCounters.CounterExact` | src/MagicOnion.Server.Redis/RedisGroup.cs:90-108 | with decrement and deletion as one step and neither kind of call, the counter is the member count |
| `MemberCounters.LateDeleteForgets` | src/MagicOnion.Server.Redis/RedisGroup.cs:94-97 | from the idle cluster a run is reached in which a late deletion forgets a join |
| `RedisGroups.GuidsRoundTrip` | src/MagicOnion.Server.Redis/NativeGuidArrayFormatter.cs:12-43 | null, empty and filled id lists read back, and exactly their bytes are consumed |
| `RedisGroups.GuidsBytes` | src/MagicOnion.Server.Redis/NativeGuidArrayFormatter.cs:12-25 | the bytes of an id list |
| `RedisGroups.Serialize` | src/MagicOnion.Server.Redis/NativeGuidArrayFormatter.cs:12-25 | appends the encoding of the list |
| `RedisGroups.Deserialize` | src/MagicOnion.Server.Redis/NativeGuidArrayFormatter.cs:28-43 | reads a list, failing at the first id that is not sixteen bytes |
| `RedisGroups.MessageRoundTrip` | src/MagicOnion.Server.Redis/RedisGroup.cs:171-191 | a published message is routed as it says, and the bytes handed on are an in-memory group's frame |
| `RedisGroups.MessageBytes` | src/MagicOnion.Server.Redis/RedisGroup.cs:171-191 | the bytes of a published message |
| `RedisGroups.ServerRefines` | src/MagicOnion.Server.Redis/RedisGroup.cs:110-134 | on one server, publish and deliver is the write itself |
| `RedisGroups.ClusterRefines` | src/MagicOnion.Server.Redis/RedisGroup.cs:141-169 | for every split of the members, every connection gets the same frame as often as from one group holding the union |
| `RedisGroups.ClusterCopies` | src/MagicOnion.Server.Redis/RedisGroup.cs:141-145 | a broadcast reaches a connection once for each server it is a member on |
| `RedisGroups.ClusterRunRefines` | src/MagicOnion.Server.Redis/RedisGroup.cs:84-169 | over every run of joins, leaves and writes each connection receives the same frames in the same order as from one group |
| `RedisGroups.MemberGetsEverything` | src/MagicOnion.Server.Redis/RedisGroup.cs:110-134 | however deliveries, publications and other connections' joins and leaves interleave, a staying member gets all that is addressed to it, in publication order |
| `RedisGroups.RedisGroup.AddAsync` | src/MagicOnion.Server.Redis/RedisGroup.cs:84-88 | counts the call and joins |
| `RedisGroups.RedisGroup.RemoveAsync` | src/MagicOnion.Server.Redis/RedisGroup.cs:90-108 | leaves, counts down, and on losing the local group deletes a zero counter and unsubscribes |
| `RedisGroups.RedisGroup.BuildMessage` | src/MagicOnion.Server.Redis/RedisGroup.cs:171-191 | builds the published message |
| `RedisGroups.RedisGroup.Send` | src/MagicOnion.Server.Redis/RedisGroup.cs:141-205 | the write members publish, the raw ones are refused |
| `RedisGroups.PublishFromRedisToMemoryGroup` | src/MagicOnion.Server.Redis/RedisGroup.cs:110-134 | a delivery performs the routed write, ignores other arrays and fails on malformed messages |
| `RedisGroups.DeliveryQueues` | src/MagicOnion.Server.Redis/RedisGroup.cs:110-134 | what that delivery means for one connection |
| `TypeInfo.DependentsIff` | src/MagicOnion.GeneratorCore/CodeAnalysis/MagicOnionTypeInfo.cs:86-117 | the enumeration yields exactly the subterms, enum underlying types excepted |
| `TypeInfo.FullNameIff` | src/MagicOnion.GeneratorCore/CodeAnalysis/MagicOnionTypeInfo.cs:81-84 | two types, jagged arrays included, print alike exactly when they have the same shape |
| `Collector.MergeResolverRegisterInfo` | src/MagicOnion.GeneratorCore/CodeAnalysis/SerializationInfoCollector.cs:180-207 | the loop computes the specified merge |
| `Collector.MergeMeaning` | src/MagicOnion.GeneratorCore/CodeAnalysis/SerializationInfoCollector.cs:172-207 | one entry per occurring name, unconditional exactly when some occurrence is, otherwise with all their conditions |
| `Collector.EntryHoldsIff` | src/MagicOnion.GeneratorCore/CodeAnalysis/SerializationInfoCollector.cs:172-207 | an entry is compiled in exactly when one of its occurrences would be |
| `Collector.MergeOrderIndependent` | src/MagicOnion.GeneratorCore/CodeAnalysis/SerializationInfoCollector.cs:180-207 | the order of occurrences does not matter, up to the order of an entry's conditions |
| `Collector.SameVerdict` | src/MagicOnion.GeneratorCore/CodeAnalysis/MagicOnionTypeInfo.cs:226-234 | types that compare equal get the same kind of formatter, so skipping a seen one loses nothing |
| `Collector.SamePayload` | src/MagicOnion.GeneratorCore/CodeAnalysis/SerializationFormatterNameMapper.cs:34-72 | types that print alike and get a formatter as generic types or arrays get the same formatter |
| `Collector.Collect` | src/MagicOnion.GeneratorCore/CodeAnalysis/SerializationInfoCollector.cs:76-141 | the loop with its visited set computes the specified registrations |
| `Collector.RegisteredIff` | src/MagicOnion.GeneratorCore/CodeAnalysis/SerializationInfoCollector.cs:76-141 | the formatters compiled in are exactly those of the occurrences whose conditions hold |
| `Collector.HintsIff` | src/MagicOnion.GeneratorCore/CodeAnalysis/SerializationInfoCollector.cs:76-141 | the type hints compiled in are those of all types found, with or without formatter |
| `Collector.CollectFailsIff` | src/MagicOnion.GeneratorCore/CodeAnalysis/SerializationFormatterNameMapper.cs:62-72 | collecting fails exactly when a found array has too many dimensions |
| `Collector.NamesDistinct` | src/MagicOnion.GeneratorCore/CodeAnalysis/SerializationInfoCollector.cs:240-252 | no name is registered both as an enum and otherwise |
| `Collector.DirectivesHoldIff` | src/MagicOnion.GeneratorCore/CodeAnalysis/SerializationInfoCollector.cs:31-57 | when a member's conditions register its types: with either of two conditions, not only with both |
| `Collector.NothingDropped` | src/MagicOnion.GeneratorCore/CodeAnalysis/SerializationInfoCollector.cs:23-74 | whenever a method is compiled in, every part of its request and response types that has a formatter has one registered |
| `Collector.NothingExtra` | src/MagicOnion.GeneratorCore/CodeAnalysis/SerializationInfoCollector.cs:23-74 | and a formatter compiled in is that of a part of some member's types under that member's own conditions |
| `Collector.EntryConditions` | src/MagicOnion.GeneratorCore/CodeAnalysis/SerializationInfoCollector.cs:172-207 | each condition of an entry is one of the conditions of such a member |
| `CodeWriter.ScanGuarded` | src/MagicOnion.GeneratorCore/Internal/IndentedTextWriterExtensions.cs:38-65 | code between the directives of a condition is kept exactly when that condition and the outer ones hold |
| `CodeWriter.TextWriter.WriteLines` | src/MagicOnion.GeneratorCore/Internal/IndentedTextWriterExtensions.cs:7-13 | appends the lines at the current indent |
| `CodeWriter.TextWriter.IfDirective` | src/MagicOnion.GeneratorCore/Internal/IndentedTextWriterExtensions.cs:38-45 | opens a directive unless the condition is blank |
| `CodeWriter.TextWriter.EndIf` | src/MagicOnion.GeneratorCore/Internal/IndentedTextWriterExtensions.cs:47-65 | closes exactly what was opened |
| `HubClientGenerator.EmitHubMethods` | src/MagicOnion.GeneratorCore/CodeGen/StaticStreamingHubClientGenerator.cs:151-203 | emits the proxies, each under its condition |
| `HubClientGenerator.EmitFireAndForget` | src/MagicOnion.GeneratorCore/CodeGen/StaticStreamingHubClientGenerator.cs:124-149 | emits the one-way client and restores the indent |
| `HubClientGenerator.EmitDispatchers` | src/MagicOnion.GeneratorCore/CodeGen/StaticStreamingHubClientGenerator.cs:205-269 | emits the broadcast switch over the receiver methods and the response switch over the hub methods, and restores the indent |
| `HubClientGenerator.BuildClients` | src/MagicOnion.GeneratorCore/CodeGen/StaticStreamingHubClientGenerator.cs:23-43 | emits the whole text; every indent taken is given back |
| `HubClientGenerator.PreprocessIsSelect` | src/MagicOnion.GeneratorCore/CodeGen/StaticStreamingHubClientGenerator.cs:23-43 | for every symbol assignment the text is well nested, and preprocessing it is generating from the enabled hubs and methods |
| `HubClientGenerator.ClientsAre` | src/MagicOnion.GeneratorCore/CodeGen/StaticStreamingHubClientGenerator.cs:23-269 | the compiled text, read back line by line, is one client class per enabled hub: per enabled method one proxy and one one-way proxy with its name, id, types and argument, and a response case of its id and response type; per enabled receiver method a broadcast case of its id, request type and name |
| `HubClientGenerator.CasesIff` | src/MagicOnion.GeneratorCore/CodeGen/StaticStreamingHubClientGenerator.cs:205-269 | the response cases in the compiled text are exactly those of the hub methods whose condition is blank or holds, and the broadcast cases those of such receiver methods |
| `HubClientGenerator.EnabledMethodsIff` | src/MagicOnion.GeneratorCore/CodeGen/StaticStreamingHubClientGenerator.cs:151-269 | which methods are enabled |
| `HubClientGenerator.ProxyAndCaseAgree` | src/MagicOnion.GeneratorCore/CodeGen/StaticStreamingHubClientGenerator.cs:151-269 | in the compiled text the response to what the j-th proxy sends, one-way or not, is taken by the j-th case, as its response type |
| `Conditions.AnyOfBlankIff` | src/MagicOnion.GeneratorCore/CodeGen/MessagePackFormatterResolverGenerator.cs:105-105 | only an empty list of conditions makes no directive |
| `Conditions.AnyOfIsOr` | src/MagicOnion.GeneratorCore/CodeGen/MessagePackFormatterResolverGenerator.cs:105-105 | the joined text is a condition, and true exactly when one of the joined ones is |
| `Conditions.ExpressionValue` | src/MagicOnion.GeneratorCore/CodeGen/MessagePackFormatterResolverGenerator.cs:105-105 | the evaluator gives every expression, written with no more parentheses than precedence asks for, its value |
| `ResolverGenerator.EmitGetFormatterHelper` | src/MagicOnion.GeneratorCore/CodeGen/MessagePackFormatterResolverGenerator.cs:85-149 | emits table and switch, each line under the disjunction of its conditions, and restores the indent |
| `ResolverGenerator.ResolvesExactly` | src/MagicOnion.GeneratorCore/CodeGen/MessagePackFormatterResolverGenerator.cs:85-149 | whichever symbols are defined, the compiled helper finds for a type exactly the formatter one of whose conditions is true |
| `ResolverGenerator.FormatterFound` | src/MagicOnion.GeneratorCore/CodeAnalysis/SerializationInfoCollector.cs:23-141 | from a compiled-in method to a resolver that finds, for every part of its types that has one, that part's own formatter |
| `ResolverGenerator.ArrayFormatters` | src/MagicOnion.GeneratorCore/CodeAnalysis/SerializationFormatterNameMapper.cs:62-72 | which formatter an array of each rank gets |
| `ResolverGenerator.GenericFormatters` | src/MagicOnion.GeneratorCore/CodeAnalysis/SerializationFormatterNameMapper.cs:34-60 | which formatter each kind of generic type gets |
| `ResolverGenerator.EnumFormatters` | src/MagicOnion.GeneratorCore/CodeAnalysis/SerializationInfo.cs:40-40 | an enum gets the formatter of its name, with underscores for dots |
| `ResolverGenerator.CreationIs` | src/MagicOnion.GeneratorCore/CodeGen/MessagePackFormatterResolverGenerator.cs:130-140 | when a formatter is taken from the formatter namespace |
| `NuGet.ResolvesToFirst` | src/MagicOnion.GeneratorCore/Utils/PseudoCompilation.cs:364-427 | a package resolves to its directory, as spelled or else in lower case, for the project's framework, else for netstandard2.1, else for netstandard2.0, and to none only if there is none of these |
| `NuGet.ListedIs` | src/MagicOnion.GeneratorCore/Utils/PseudoCompilation.cs:431-468 | a description lists what the first element with a group for the framework, else for netstandard2.1, else for netstandard2.0, has in the first such group |
| `NuGet.FollowsDescription` | src/MagicOnion.GeneratorCore/Utils/PseudoCompilation.cs:366-392 | the dependencies followed are those listed in the package's own description for the framework that was found |
| `NuGet.RootsIff` | src/MagicOnion.GeneratorCore/Utils/PseudoCompilation.cs:394-403 | the search starts from the references that name a package, their ids in lower case |
| `NuGet.PackageCollector.CollectNugetPackages` | src/MagicOnion.GeneratorCore/Utils/PseudoCompilation.cs:360-392 | the recursion ends, computes the specified set and expands each new directory once |
| `NuGet.PackageCollector.CollectReferences` | src/MagicOnion.GeneratorCore/Utils/PseudoCompilation.cs:394-403 | the same over the project's references |
| `NuGet.CollectsOnlyReachable` | src/MagicOnion.GeneratorCore/Utils/PseudoCompilation.cs:359-403 | only directories of reachable packages are collected, whatever the file system |
| `NuGet.SameDescriptionIff` | src/MagicOnion.GeneratorCore/Utils/PseudoCompilation.cs:431-440 | two packages that resolve to one directory have one description exactly when neither is split, its assemblies in lower case but its own directory as spelled |
| `NuGet.CollectIsReachable` | src/MagicOnion.GeneratorCore/Utils/PseudoCompilation.cs:359-403 | when no reachable package is split, exactly the directories of the reachable packages are collected |
| `NuGet.CaseUniqueIsEnough` | src/MagicOnion.GeneratorCore/Utils/PseudoCompilation.cs:431-440 | no two directories that differ only in case are enough for that |
| `NuGet.AlwaysCompleteIff` | src/MagicOnion.GeneratorCore/Utils/PseudoCompilation.cs:359-468 | the search misses nothing, whatever the descriptions list, exactly on the layouts without a split package or with one directory |
| `NuGet.SplitLayoutUnsafe` | src/MagicOnion.GeneratorCore/Utils/PseudoCompilation.cs:366-383 | layouts on which some descriptions and references make the search miss a directory exist |

## Left out

- NuGet.CollectIsReachable: attribute values are given without surrounding blanks, and lower-casing is any idempotent function. For one fixed set of descriptions the condition is sufficient only; for a layout, whatever the descriptions list, `AlwaysCompleteIff` is exact when the packages directory and the frameworks are in lower case.
- JoinLimit.JoinsWithinLimit: looking the group up and reading its member count are one step; joins without a limit are not in this machine.
- MemberCounters.CounterConserved: is about runs in which no deletion finds the key counted up again; `CounterExact` covers decrement and deletion as one step, `LateDeleteForgets` the rest.
- ResolverGenerator.ResolvesExactly: conditions must be ones that the evaluator accepts; comments and escapes inside them are not modelled.
- Collector.RegisteredIff: in types with arguments names must be identifiers, jagged arrays excepted, and a dotted name must be split into namespace and type in one way; `Collector.NamesDistinct` and `ResolverGenerator.FormatterFound` ask the former of every type.
- HubClientGenerator.ClientsAre: the text that does not depend on the methods is a parameter; a line is what it says, not its characters, and the `ValueTask` around a forwarded call is recorded as the method's result type.
- HubServer.StreamingHub.HandleMessageAsync: what is done in each turn and how handlers end is given; what other connections do meanwhile is not in the method. In `Session` handlers answer at any time and broadcasts interleave, in `GroupRegistry` all connections' joins, leaves and disconnects do.
- HubServer.StreamingHub.Connect: how it reports an exception of the loop or a hook; what handlers still running do during and after the clean-up is in `GroupRegistry`.
- GroupRegistry.StaysGoneIff: is about continuations without an explicit leave of the object in question; with one, only the bound of `DisconnectedIsGone` is stated. Adding to the object and adding to the bag are one step; a disconnect between the two is the late join.
- The gRPC transport: the two streams are ordered logs of which a prefix is delivered. ASP.NET, MSBuild and Roslyn reading, reflection and IL emission.
- Payload serializers: payloads are opaque bytes, and `Result` stands for whatever deserializing one yields, an exception included.
- UTF-8: a string is its UTF-8 bytes.
- The extra checks of the MessagePack reader against lengths beyond the buffer, and its acceptance of strings as binary, which belong to that library. The guid formatter is modelled as a sixteen-byte binary; its file is not part of this model.
- Allocation failure, and a call of `Advance` beyond the reserved part, which is a caller's error.
- `Session` has no user's hooks; frames they queue are in `HubServer` only.
- Filters that never call `next`, or call it again, or throw after it, are excluded from `SessionProgress` only.
- Synchronisation contexts, logging, telemetry, the HTTP gateway.
- The check-and-set of `disposed` is one step; the source does it in two.
- The values kept in the in-memory storage (only its keys are modelled) and its refusal of a second type.
- Joining a group object directly, without `HubGroupRepository`.
- The order in which a dictionary is enumerated is left open.
- In the dictionary group, a raw write with null ids and a write to one absent id report nothing to the logger, while the array group reports zero for the latter; `SameWriteCount` compares the number of writes.
- `RedisGroupRepository` names groups by their in-memory group; messages that arrive while a server is not subscribed reach a server without members in the model, which queues nothing.
- The receiver's own `IfDirectiveCondition`, which no generator reads.
- The sorting of registrations by name, the type-hint method and the MemoryPack registration generator: easy members.
- XML and project-file reading: references, directories and the groups of a description are given.
- `UnsafeDirectBlitResolver`, the tuple formatters, the unrolled filter chain and `UnaryResult` wrappers.
