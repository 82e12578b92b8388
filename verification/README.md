# Federation gateway: a verified model

The federation gateway speaks Diameter to an operator's core network. This
project models its core in Dafny and proves what that core keeps:

- the connection manager, its Connections and the threads that send on them,
  as a step machine in which every critical section is one step
  (`Connection.dfy`, `ConnectionManager.dfy`, `ConnectionMachine.dfy`,
  `ConnectionSafety.dfy`, `ConnectionReach.dfy`, `ConnectionSharing.dfy`,
  `ConnectionLinear.dfy`, `ConnectionDisable.dfy`);
- the request tracker with its senders, answer handlers, time-outs and buffered
  channels, as a second step machine (`RequestTracker.dfy`);
- sending one message with retries that edit it in place (`MessageSending.dfy`);
- the policy store that mirrors streamed snapshots in Redis, from the string
  hashes up to charging keys (`ObjectStore.dfy`, `Streamer.dfy`, `PolicyDb.dfy`);
- the Session-Id codecs and parsers (`SessionId.dfy`);
- the flow-description parser, with its regular expression as a greedy
  backtracking matcher (`FlowParser.dfy`);
- the PLMN filter, the nibble codecs and the gateway-id search
  (`PlmnFilter.dfy`, `TelecomCodecs.dfy`, `GatewayId.dfy`).

Code that changes state is a class or a method proved against a function on
values; the same functions are the steps of the machines, and the theorems are
about every run of those. `dafny verify dfyconfig.toml` verifies everything.

## Where code and documentation differ

The model follows the code. For each of these, theorems say when the documented
behaviour holds and when it does not.

- `DisableFor` "disables new connection creations for given duration": an
  earlier `DisableFor` whose timer is due sooner ends it early.
- A conn given to `AddExistingConnection` again can end up stored although closed,
  iff some Connection has closed it, is being used on it, or stores it and is
  held by a thread or registered under another key.
- A conn can stay open in a Connection nothing can reach any more, iff some step
  overwrote the last key of the Connection while nobody held it, dropped the map
  while nobody held it, released the last reference to it while it was not
  registered, or was its late first dial.
- `sendMessageWithRetries` reports success without an attempt when
  `retryCount + 1` wraps.
- A failing `SendRequest`, and a time-out through `IgnoreAnswer`, deregister
  whatever their key tracks, also a newer request that reused the key.
- A channel made with room for one answer per request, as the session proxy makes
  it, can block a handler once a failed request is both reported and answered: a
  channel can block iff its capacity is below the answers and reports together.
- An answer with an unknown key blocks its handler for ever, and one with a known
  key blocks it while the request's channel is full.
- The PLMN filter keeps one sixth digit per five-digit prefix, so two six-digit
  ids sharing five digits shadow each other.
- A protocol number without a name is parsed as what its low 32 bits name, such
  as 2^32 + 6 as TCP, and as IP when they name nothing, without an error.
- The second field of a generated Session-Id, which the comment calls the high 32
  bits, exceeds 32 bits unless the two halves of the clock reading are equal.

## Model

| member | source | states |
|---|---|---|
| Connections.Connection.Fresh | feg/gateway/diameter/connection.go:48-52 | a new Connection stores neither conn nor metadata |
| Connections.Connection.Existing | feg/gateway/diameter/connection_manager.go:73-78 | a handed-over conn is stored together with its metadata |
| Connections.Connection.GetDiamConnection | feg/gateway/diameter/connection.go:127-159 | reuses the stored conn or stores the dialled one; conn and metadata stay paired; what is returned is what is stored; a conn without metadata is closed and not stored |
| Connections.Connection.DestroyConnection | feg/gateway/diameter/connection.go:165-176 | forgets the conn only if it is still the stored one, and closes it in any case |
| Connections.Connection.CleanupConnection | feg/gateway/diameter/connection.go:179-190 | empties the slot and closes what was in it |
| Connections.AcquireIff | feg/gateway/diameter/connection.go:127-159 | a conn is returned iff it was stored with its metadata, or nothing was and it was dialled; it is what is stored afterwards; only a dialled conn without metadata is closed |
| ConnectionRegistry.ConnectionManager.constructor | feg/gateway/diameter/connection_manager.go:34-36 | starts empty and enabled |
| ConnectionRegistry.ConnectionManager.GetOrCreateLocked | feg/gateway/diameter/connection_manager.go:48-59 | the write-locked section: refuse when disabled, else return the entry or register a fresh Connection |
| ConnectionRegistry.ConnectionManager.GetConnection | feg/gateway/diameter/connection_manager.go:40-60 | run alone, the two sections are the indivisible lookup-or-create |
| ConnectionRegistry.ConnectionManager.AddExistingConnection | feg/gateway/diameter/connection_manager.go:66-81 | registers a new Connection around the conn whether or not creation is disabled; without metadata nothing changes |
| ConnectionRegistry.ConnectionManager.CleanupConnections | feg/gateway/diameter/connection_manager.go:106-113 | every registered slot is emptied, exactly the stored conns are closed, the map is dropped |
| ConnectionRegistry.ConnectionManager.DisableFor | feg/gateway/diameter/connection_manager.go:91-97 | the same, the flag is set, and a timer due after the period is added to those pending |
| ConnectionRegistry.ConnectionManager.Enable | feg/gateway/diameter/connection_manager.go:100-104 | clears the flag and keeps the map |
| ConnectionSafety.ConnectionsAreSafe | feg/gateway/diameter/connection.go:127-190 | in every state of every run: conn and metadata are paired, the stored conn is neither closed through its Connection nor about to be, and a conn out of its slot is closed or has a thread committed to closing it |
| ConnectionSafety.OnlyOwnFailureRemoves | feg/gateway/diameter/connection.go:161-176 | over every run, a conn leaves its slot only through a cleanup's visit, or a destroyConnection that directly follows a failed write of the same thread on that very conn |
| ConnectionSafety.HealthyConnStays | feg/gateway/diameter/connection.go:113-122 | without a failed write on it and without a cleanup a conn stays stored |
| ConnectionSafety.SuccessfulWriteKeeps | feg/gateway/diameter/connection.go:117-122 | a successful write removes and closes nothing, and leaves its sender free to go on or let go |
| ConnectionSafety.FailedWriteCloses | feg/gateway/diameter/connection.go:117-176 | after a failed write the sender's next steps take that conn, and no other, out of its slot and close it |
| ConnectionSafety.StoredWasBrought | feg/gateway/diameter/connection.go:127-159 | whatever a Connection stores was handed over or dialled for it, with that conn's own metadata |
| ConnectionSafety.RemovedForGood | feg/gateway/diameter/connection.go:127-190 | a conn once removed never comes back to its slot |
| ConnectionSafety.CleanupRetires | feg/gateway/diameter/connection_manager.go:84-113 | when a cleanup returns, whatever senders did meanwhile, each conn it found registered is out of its slot for good and closed or committed to be closed |
| ConnectionSharing.ExclusiveStep | feg/gateway/diameter/connection_manager.go:66-81 | a step keeps every conn with one Connection iff it does not hand over a conn already seen |
| ConnectionSharing.ExclusiveIffFresh | feg/gateway/diameter/connection_manager.go:62-81 | over a whole run, conns stay with one Connection iff every handover was fresh |
| ConnectionSharing.FreshHandoversStayOpen | feg/gateway/diameter/connection.go:165-190 | with fresh handovers the stored conn is not closed, or about to be, through any Connection, and no two Connections share it |
| ConnectionSharing.EndangersOrigin | feg/gateway/diameter/connection.go:127-190 | no step but another handover brings a Connection to where it can close a conn |
| ConnectionSharing.StoredIsOpenEverywhere | feg/gateway/diameter/connection.go:127-190 | from any reachable state in which no other Connection can close a stored conn, in every continuation without another handover of it, the conn is not closed or about to be through any Connection while it is stored |
| ConnectionSharing.StoredCanBeClosedIff | feg/gateway/diameter/connection.go:127-190 | from any reachable state, some continuation without another handover leaves a Connection storing a conn closed through another one iff another one has closed it, is being used on it, or stores it and is in reach |
| ConnectionSharing.HandoverIsUnsafeIff | feg/gateway/diameter/connection_manager.go:62-81 | the same for a handover, in terms of the state before it: unsafe iff some Connection has closed the conn, is being used on it, or stores it and is held or registered under another key |
| ConnectionSharing.ReplacingUnusedEntryIsSafe | feg/gateway/services/testcore/hss/servicers/message.go:122-148 | handing the same conn over again under its key, with the replaced Connection unused, is not fresh and yet safe |
| ConnectionReach.StrandedForGood | feg/gateway/diameter/connection_manager.go:66-113 | a conn stored in a Connection nothing can reach stays there for ever and is never closed through it |
| ConnectionReach.StrandsIff | feg/gateway/diameter/connection_manager.go:66-113 | a step strands a conn iff, in the state before it, it overwrites the last key of a Connection nobody holds, releases the last reference to an unregistered one, drops the map under one nobody holds, or is the first dial of one out of reach |
| ConnectionReach.StrandedIff | feg/gateway/diameter/connection_manager.go:40-113 | over every run, a conn is stored in a Connection nothing can reach iff one of those steps came before |
| ConnectionReach.OverwriteStrands | feg/gateway/diameter/connection_manager.go:66-81 | a second handover under the same key strands the first conn |
| ConnectionReach.DialAfterCleanupStrands | feg/gateway/diameter/connection.go:127-159 | a run that ends with a dial, a successful write and a release by a sender that held its Connection over a cleanup strands the conn |
| ConnectionReach.LateFirstDialStrands | feg/gateway/diameter/connection.go:53-60 | the first-dial goroutine strands its conn when it comes after the caller's release and a cleanup |
| ConnectionReach.StrandedOrigin | feg/gateway/diameter/connection_manager.go:66-113 | a stranded conn's Connection had its key overwritten, or the conn was dialled after a cleanup's visit |
| ConnectionReach.HolderKeepsConnection | feg/gateway/diameter/connection.go:76-123 | from when it has a Connection until it lets go, through failed dials and writes, a caller keeps that same Connection |
| ConnectionSharing.ReusedHandoverStoresClosedConn | feg/gateway/diameter/connection_manager.go:66-81 | from any run with a sender writing on a conn, handing it over again leads to a Connection that stores a closed conn |
| ConnectionSharing.ReusedHandoverRun | feg/gateway/diameter/connection_manager.go:66-81 | such a run from the initial state |
| ConnectionSharing.FirstDialIsHarmless | feg/gateway/diameter/connection.go:53-60 | a Connection that only its first-dial goroutine still knows cannot close a conn handed over again |
| ConnectionLinear.RefusalInstant | feg/gateway/diameter/connection_manager.go:40-52 | if creation is disabled after a miss, there was an instant since the miss at which it was disabled and the key absent |
| ConnectionLinear.GetConnectionIsLinearizable | feg/gateway/diameter/connection_manager.go:38-60 | every call, in every interleaving, has an instant within the call at which the indivisible operation gives its answer and its effect on the map; the caller is left with the Connection it was answered, or none |
| ConnectionLinear.AnswerAfterMiss | feg/gateway/diameter/connection_manager.go:48-59 | a call that missed is refused iff creation is disabled when it gets the lock, even if the key is registered by then; else it gets the entry or a new, empty Connection |
| ConnectionLinear.CallersShareConnection | feg/gateway/diameter/connection_manager.go:40-113 | between two events that reset or overwrite a key all successful callers get the same Connection |
| ConnectionLinear.AtMostOneCreation | feg/gateway/diameter/connection_manager.go:53-59 | a key gets a second created Connection only after a cleanup |
| ConnectionDisable.DisabledAlways | feg/gateway/diameter/connection_manager.go:66-97 | in every reachable disabled state the last DisableFor's timer is pending at its deadline, and every entry was added by AddExistingConnection since that call |
| ConnectionDisable.EntriesAddedSince | feg/gateway/diameter/connection_manager.go:66-97 | over every run, each entry of a disabled state comes from an AddExistingConnection call since the last DisableFor |
| ConnectionDisable.EnableEnables | feg/gateway/diameter/connection_manager.go:100-104 | Enable clears the flag at once and changes nothing else |
| ConnectionDisable.CleanupSetsTimer | feg/gateway/diameter/connection_manager.go:91-97 | a cleanup sets a timer, due the given period after the call if positive and at once otherwise, iff it was started to disable |
| ConnectionDisable.NothingCreatedWhileDisabled | feg/gateway/diameter/connection_manager.go:50-52 | a step from a disabled state brings a new Connection only through AddExistingConnection |
| ConnectionDisable.DisablingBindsOnlyGetConnection | feg/gateway/diameter/connection_manager.go:66-80 | in every reachable disabled state a conn can still be added, and a thread holding a Connection can still dial on it |
| ConnectionDisable.DueTimerEnables | feg/gateway/diameter/connection_manager.go:96-104 | once due, the last DisableFor's timer can fire and ends the disablement |
| ConnectionDisable.ReenabledByDeadline | feg/gateway/diameter/connection_manager.go:90-104 | with prompt timers, creation is enabled in every state past the last deadline |
| ConnectionDisable.FiredOnTime | feg/gateway/diameter/connection_manager.go:96 | with prompt timers, a timer no longer pending enabled creation at its due time |
| ConnectionDisable.DisableLastsIffNoEarlierTimer | feg/gateway/diameter/connection_manager.go:90-97 | creation stays disabled for the whole period given to the call iff no earlier call left a timer due sooner |
| ConnectionDisable.EarlierTimerCutsDisableShort | feg/gateway/diameter/connection_manager.go:90-97 | for any two overlapping periods the shorter, earlier one ends the longer one |
| RequestTracking.RequestTracker.RegisterRequest | feg/gateway/diameter/request_tracker.go:34-39 | the key maps to the given channel, which is returned |
| RequestTracking.RequestTracker.DeregisterRequest | feg/gateway/diameter/request_tracker.go:43-52 | returns the channel, or nil, and the key is gone |
| RequestTracking.Client.SendRequest | feg/gateway/diameter/diameter_client.go:203-219 | the key stays registered on success and on a connection error, and is deregistered on a send error |
| RequestTracking.Client.HandleAnswer | feg/gateway/diameter/diameter_client.go:252-259 | an answer without key changes nothing; otherwise the channel is what DeregisterRequest returns |
| RequestMachine.FateIsFinal | feg/gateway/diameter/request_tracker.go:33-52 | over every run, a registration's key and channel never change and its fate, once settled, is final: it is consumed at most once |
| RequestMachine.RegistrationsAccounted | feg/gateway/diameter/request_tracker.go:33-52 | a registration is open iff the tracker returns it, and then no later one has its key; an overwritten one was overwritten by the next one of its key |
| RequestMachine.AnswersReachTheirRequest | feg/gateway/diameter/diameter_client.go:250-261 | each delivered answer came in for its registration's key while that was the latest, still open registration of the key, and went to its channel |
| RequestMachine.AnswerIsDelivered | feg/gateway/diameter/diameter_client.go:252-259 | the handler's send delivers the answer it came with to the request it looked up |
| RequestMachine.SenderBegan | feg/gateway/diameter/diameter_client.go:209-217 | a thread that is sending is sending what it registered last |
| RequestMachine.FailedIff | feg/gateway/diameter/diameter_client.go:210-218 | a request counts as failed iff its SendRequest ended without a connection or without a write |
| RequestMachine.WaitingIff | feg/gateway/diameter/diameter_client.go:210-242 | a request is waited for iff its SendRequest returned nil and it was neither ignored nor finished with since |
| RequestMachine.ChannelConserves | feg/gateway/diameter/diameter_client.go:257-258 | over every run a channel holds exactly what was sent on it, answers and reports, less what was received |
| RequestMachine.OneAnswerPerRegistration | feg/gateway/diameter/diameter_client.go:257-258 | no two deliveries belong to the same registration |
| RequestMachine.HandlerBlocksIff | feg/gateway/diameter/diameter_client.go:257-258 | at every moment before its send, a handler has no step to take iff its key was not tracked at the lookup or its channel is full now |
| RequestMachine.UnknownAnswerBlocks | feg/gateway/diameter/diameter_client.go:257-258 | with an untracked key the handler is blocked in every later state |
| RequestMachine.HandlerCanFinishIff | feg/gateway/diameter/diameter_client.go:257-258 | some continuation lets the handler send its answer iff its key was tracked |
| RequestMachine.FullUntilReceived | feg/gateway/diameter/diameter_client.go:258 | a full channel stays full until somebody receives from it |
| RequestMachine.SizedChannelNeverBlocks | feg/gateway/services/session_proxy/servicers/credits.go:134-168 | a channel with room for one value per answered registration, and one per error the application has sent on it, never blocks a tracked answer |
| RequestMachine.ChannelCanBlockIff | feg/gateway/diameter/diameter_client.go:257-258 | for every channel and all counts a > 0 and r, some run with a answered and r reported registrations on it ends with a handler blocked iff the capacity is below a + r |
| RequestMachine.OneSlotPerRequestSuffices | feg/gateway/services/session_proxy/servicers/credits.go:136-168 | room for one value per registration is enough when no registration is both answered and reported |
| RequestMachine.OneSlotPerRequestFails | feg/gateway/services/session_proxy/servicers/credits.go:136-168 | for every buffer of that size there is a run in which a request fails without a connection, is reported, is answered, and its handler blocks |
| RequestMachine.AnsweredThoughFailed | feg/gateway/diameter/diameter_client.go:209-219 | a failed request is answered only if it had no connection, or its answer was taken before the send failed |
| RequestMachine.FailedSendRemovesItsOwn | feg/gateway/diameter/diameter_client.go:209-217 | if no SendRequest starts on a key still being sent, a failing send deregisters only its own registration |
| RequestMachine.ReusedKeyLosesRequest | feg/gateway/diameter/diameter_client.go:209-217 | whenever a key being sent is reused, the older send's failure deregisters the newer request |
| RequestMachine.FailuresAreOwnIffNoReuse | feg/gateway/diameter/diameter_client.go:209-217 | over a whole run, every send failure that could come next removes only its own registration iff no SendRequest started on a key still being sent |
| RequestMachine.ReusedKeyTimesOut | feg/gateway/diameter/diameter_client.go:238-242 | a key reused while waited for: the older request's time-out deregisters the newer request |
| RequestMachine.RemovalsAreOwnIffNoReuse | feg/gateway/diameter/diameter_client.go:203-242 | over a whole run, every send failure or time-out that could come next removes only its own registration iff no SendRequest started on a key still being sent or waited for |
| RequestMachine.StepsMatchTracker | feg/gateway/diameter/request_tracker.go:33-52 | the machine's steps act on the channel map as the tracker's methods do |
| RequestMachine.HandlerUsesReturnedChannel | feg/gateway/diameter/diameter_client.go:257-258 | the handler sends on the channel the tracker returned, and blocks on nil |
| MessageSending.Find | feg/gateway/diameter/connection.go:212-222 | the position of the first AVP with the code, or the length |
| MessageSending.Message.FindAvp | feg/gateway/diameter/connection.go:212-222 | the loop finds that position |
| MessageSending.Message.AddDestinationTo | feg/gateway/diameter/connection.go:194-232 | edits the message to carry the resolved destination, or fails without an edit when none can be resolved |
| MessageSending.Message.SendOnce | feg/gateway/diameter/connection.go:94-123 | succeeds iff connected, addressed (requests) and written; edits requests only |
| MessageSending.Message.SendWithRetries | feg/gateway/diameter/connection.go:76-89 | makes the attempts and in-place edits of the specification, in 64-bit arithmetic |
| MessageSending.RetriesStopAtFirstSuccess | feg/gateway/diameter/connection.go:76-89 | below the wrap point: one to retryCount + 1 attempts, none after a success, and a nil error iff one succeeded |
| MessageSending.NilErrorMeansWritten | feg/gateway/diameter/connection.go:76-123 | in terms of the attempts alone: a nil error iff some attempt was connected, written and, for a request, had metadata or both configured names; an error means all retryCount + 1 attempts were made |
| MessageSending.WrapSendsNothing | feg/gateway/diameter/connection.go:79-88 | with the largest retry count nothing is sent and no error is reported |
| MessageSending.SuccessIsTrueIffNoWrap | feg/gateway/diameter/connection.go:79-88 | a nil error means a successful attempt, for every retry count except the one that wraps |
| MessageSending.AddTwice | feg/gateway/diameter/connection.go:194-232 | two edits equal one, with the last realm and the last or first host |
| MessageSending.RetriesEditOnce | feg/gateway/diameter/connection.go:81-110 | any number of in-place edits equals one |
| MessageSending.DestinationEffect | feg/gateway/diameter/connection.go:192-232 | realm and host are each set or appended at most once, by the flags, and no other AVP moves or changes |
| MessageSending.RequestDestination | feg/gateway/diameter/connection.go:76-232 | after any attempts the realm is the configured or the last peer's, the host the configured or the last or first peer's by the flags, all else unchanged |
| MessageSending.UnaddressedIsUnchanged | feg/gateway/diameter/connection.go:194-199 | a request none of whose attempts can name a destination is left as it was |
| ObjectStore.RedisClient.HSet | feg/gateway/object_store/redis.go:63-66 | sets the field unless the write is lost; other hashes are untouched |
| ObjectStore.RedisClient.HDel | feg/gateway/object_store/redis.go:78-81 | removes the field unless the write is lost; other hashes are untouched |
| ObjectStore.RedisMap.Set | feg/gateway/object_store/object_store.go:59-65 | stores the serialized object; an unserializable one or a lost write changes nothing |
| ObjectStore.RedisMap.Get | feg/gateway/object_store/object_store.go:68-74 | the visible entry, an error if missing or undecodable |
| ObjectStore.RedisMap.Delete | feg/gateway/object_store/object_store.go:76-78 | removes the entry of this map only |
| ObjectStore.RedisMap.GetAll | feg/gateway/object_store/object_store.go:81-96 | exactly the decodable entries |
| ObjectStore.RedisMap.DeleteAll | feg/gateway/object_store/object_store.go:98-110 | success empties the hash, undecodable entries included; failure has removed only some fields whose deletion took effect |
| ObjectStore.FieldStepRefines | feg/gateway/object_store/object_store.go:59-110 | each call, failing or not, answers and changes what is visible as a typed map does |
| ObjectStore.StoreRefinesTypedMaps | feg/gateway/object_store/object_store.go:20-110 | every sequence of calls gives on the string store the answers of typed maps |
| ObjectStore.HashesAreIndependent | feg/gateway/object_store/object_store.go:36-110 | in any sequence of calls, a map's contents and answers are those of its own calls run alone |
| Serializers.InRedisStateRoundTrips | feg/gateway/policydb/serializers.go:26-51 | the wrapped serializer pair is a round trip if both inner pairs are |
| Serializers.ObjectCodecRoundTrips | feg/gateway/policydb/serializers.go:53-79 | adding the type check keeps the round trip |
| Serializers.StoredCodecsRoundTrip | feg/gateway/policydb/serializers.go:53-107 | the policy and base-name codecs are round trips given protobuf's |
| Serializers.StoredCodecsAcceptIff | feg/gateway/policydb/serializers.go:26-107 | a stored codec takes exactly the objects of its type that protobuf can marshal, inside an envelope of version 0 |
| Streamer.StoredObjectListener.StoreUpdates | feg/gateway/policydb/streamer.go:77-87 | the first loop sets the decodable updates in order and keeps the unmentioned keys as leftovers |
| Streamer.StoredObjectListener.DeleteLeftovers | feg/gateway/policydb/streamer.go:88-93 | the second loop removes exactly the leftovers whose deletion takes effect |
| Streamer.StoredObjectListener.Update | feg/gateway/policydb/streamer.go:66-95 | a batch has the specified effect on its hash and none on others; non-resync batches and an unreadable store change nothing |
| Streamer.ResyncEffect | feg/gateway/policydb/streamer.go:71-93 | exactly what is visible under each key after a resync, for any pattern of lost, failed and unacknowledged writes |
| Streamer.ResyncShowsSnapshot | feg/gateway/policydb/streamer.go:66-95 | without store errors GetAll is each key's last decodable value, from any earlier store, with duplicates, undecodable updates and undecodable leftovers |
| Streamer.SnapshotIsLast | feg/gateway/policydb/streamer.go:77-87 | the snapshot of a key is the value of its last decodable update, and nothing iff it has none |
| Streamer.UndecodableStays | feg/gateway/policydb/streamer.go:71-93 | a stored field that does not decode and is in no update is left alone |
| Streamer.ReadersSeeOldOrNew | feg/gateway/policydb/streamer.go:71-93 | after every prefix of a resync's writes a reader sees under each key the old value, one the batch gives it or nothing, and a key both old and in the batch never disappears |
| Streamer.FaultsStayLocal | feg/gateway/policydb/streamer.go:77-93 | with failing writes a visible entry is a batch value of its key or an old entry whose own Sets or Delete failed |
| Streamer.LastResyncWins | feg/gateway/policydb/streamer.go:66-95 | over any sequence of batches the visible map is the last error-free resync's snapshot when no resync follows it |
| Streamer.ReplayIsIdempotent | feg/gateway/policydb/streamer.go:66-95 | replaying a batch changes nothing visible |
| PolicyDb.CreateChargingKey | feg/gateway/policydb/policydb.go:58-64 | the key keeps the rating group, and the optional service identifier can be read back from it |
| PolicyDb.KeysOf | feg/gateway/policydb/policydb.go:122-174 | a rule yields one key with its rating group and service identifier, or none iff it is missing, tracked only by the PCRF or not tracked |
| PolicyDb.FlatMapInOrder | feg/gateway/policydb/policydb.go:116-168 | what the i-th element contributes stands right behind what the elements before it contribute, and nothing follows the last |
| PolicyDb.Contributions | feg/gateway/policydb/policydb.go:100-168 | a rule id contributes the keys of its visible policy and a base name the names of its visible set, nothing if the store does not answer or holds another type |
| PolicyDb.RedisPolicyDBClient.constructor | feg/gateway/policydb/policydb.go:67-91 | three maps in their own hashes of one client |
| PolicyDb.RedisPolicyDBClient.GetPolicyRuleByID | feg/gateway/policydb/policydb.go:100-110 | the visible policy of that id, otherwise an error |
| PolicyDb.RedisPolicyDBClient.GetChargingKeysForRules | feg/gateway/policydb/policydb.go:114-132 | the keys of the charged static rules then of the charged dynamic ones, in order and with multiplicity, skipping failed lookups |
| PolicyDb.RedisPolicyDBClient.GetRuleIDsForBaseNames | feg/gateway/policydb/policydb.go:154-170 | the rule names of the visible base names, concatenated in order |
| PolicyDb.RedisPolicyDBClient.GetOmnipresentRules | feg/gateway/policydb/policydb.go:134-150 | the lists of some visible entry, empty lists if there is none or it has another type |
| PolicyDb.RedisPolicyDBClient.Sync | feg/gateway/policydb/policydb.go:93-94 | the two listeners update their own hashes of the shared client |
| PolicyDb.RedisPolicyDBClient.ResyncAndCharge | feg/gateway/policydb/policydb.go:93-170 | resyncing both streams into one Redis and charging base names gives what the snapshots alone give |
| PolicyDb.ChargingFollowsSnapshots | feg/gateway/policydb/policydb.go:100-170 | the keys charged after two resyncs, from any earlier store, equal those computed directly from the snapshots |
| SessionId.RoundTripIff | feg/gateway/diameter/diameter_client.go:362-408 | encoding then decoding is the identity under every identity iff the id is a local one with a single '-' and no ';', or is recognised by neither function |
| SessionId.MagmaSessionIdsSurvive | feg/gateway/diameter/diameter_client.go:357-408 | every IMSIx-r without '-' or ';' in x and r survives, under any identity |
| SessionId.DecodedIsStableIff | feg/gateway/diameter/diameter_client.go:362-408 | a decoded id survives re-encoding under every identity iff its parts hold no '-' |
| SessionId.DecodeFields | feg/gateway/diameter/diameter_client.go:362-369 | behind any host, two fields and an IMSI field become the short form |
| SessionId.DecodeKeepsOthers | feg/gateway/diameter/diameter_client.go:362-369 | any other string is returned unchanged |
| SessionId.EncodeFields | feg/gateway/diameter/diameter_client.go:399-405 | the part behind the first '-' is halved into two fields, and what follows a second '-' is dropped |
| SessionId.EncodeKeepsOthers | feg/gateway/diameter/diameter_client.go:399-406 | a string that does not start with IMSI or holds no '-', so every encoded id of another host, is returned unchanged |
| SessionId.EncodeIsIdempotent | feg/gateway/diameter/diameter_client.go:399-406 | encoding what was encoded, under any identity, changes nothing unless the first identity starts with IMSI |
| SessionId.ExtractImsiFromSessionID | feg/gateway/diameter/diameter_client.go:375-394 | the loop accepts exactly a final IMSI field of 10 to 16 digits |
| SessionId.ImsiIsExtracted | feg/gateway/diameter/diameter_client.go:375-394 | behind any other fields, IMSI and 10 to 16 digits with spaces around give the digits |
| SessionId.ExtractedIsImsi | feg/gateway/diameter/diameter_client.go:375-394 | only strings of that form do |
| SessionId.ParseReadsBearer | feg/gateway/diameter/diameter_client.go:412-433 | IMSIx_b in the fourth field is read as IMSI x and bearer id b |
| SessionId.ParseNeedsNoPrefix | feg/gateway/diameter/diameter_client.go:412-433 | so is x_b without the prefix |
| SessionId.ParseReadsFewer | feg/gateway/diameter/diameter_client.go:412-433 | fields that are missing are read as empty |
| SessionId.ParsersAgree | feg/gateway/diameter/diameter_client.go:375-433 | on host;r1;r2;IMSI both parsers give the IMSI, and host and both random parts are recovered |
| SessionId.ParsersReadEncoded | feg/gateway/diameter/diameter_client.go:375-433 | both parsers read every encoded session id |
| SessionId.ParsersReadGenerated | feg/gateway/diameter/diameter_client.go:305-433 | both parsers and the decoder read every generated session id |
| SessionId.GeneratedFields | feg/gateway/diameter/diameter_client.go:289-301 | a generated id has the host, the spread clock word, the random word and the trailing value in this order, also when host or trailing value hold ';' |
| SessionId.GeneratedClockFieldFitsIff | feg/gateway/diameter/diameter_client.go:287-301 | the field documented as the high 32 bits fits in 32 bits iff the two halves of the clock reading are equal; the random field always does |
| SessionId.ClockFieldOverflows | feg/gateway/diameter/diameter_client.go:295-296 | a clock reading of 1 gives a field beyond 32 bits |
| SessionId.SpreadHalves | feg/gateway/diameter/diameter_client.go:295-296 | the low half of the clock word stays and the high half is xor-ed with it |
| SessionId.SpreadInverse | feg/gateway/diameter/diameter_client.go:295-296 | spreading the clock word is its own inverse, so a bijection on 64-bit words |
| SessionId.GenerationIsInjective | feg/gateway/diameter/diameter_client.go:291-301 | for a fixed identity and protocol the id determines clock, random word and trailing value, even one holding ';' |
| Regex.MatchIsSound | feg/gateway/policydb/flow_parser.go:50-59 | what the matcher returns is a match |
| Regex.MatchIsGreediest | feg/gateway/policydb/flow_parser.go:27-59 | the matcher misses no match and prefers longer earlier groups |
| Regex.FindFrom | feg/gateway/policydb/flow_parser.go:55-58 | the matcher's match at the leftmost start that has one, and none iff no start has one |
| FlowParser.ItemsTake | feg/gateway/policydb/flow_parser.go:25-28 | which characters the white-space and the any-character runs take |
| FlowParser.CutsAreUnique | feg/gateway/policydb/flow_parser.go:27-59 | on a canonical text every way to match has the same groups up to the end of the last |
| FlowParser.DescriptorGroups | feg/gateway/policydb/flow_parser.go:50-60 | the groups of a canonical text are its tokens, source and destination |
| FlowParser.ParseInvertsRender | feg/gateway/policydb/flow_parser.go:42-177 | parsing the text of any canonical rule recovers action, direction, protocol, addresses with IP version, and ports for TCP and UDP only |
| FlowParser.RenderIs | feg/gateway/policydb/flow_parser.go:36-41 | what the text of a canonical rule is |
| FlowParser.ParsesIff | feg/gateway/policydb/flow_parser.go:42-177 | a text with one `from` and one `to` behind it parses iff action, direction, protocol and both addresses do |
| FlowParser.ParsedFields | feg/gateway/policydb/flow_parser.go:62-177 | and then each field of the flow comes from its own token; tokens behind a port are not looked at |
| FlowParser.AtoiReads | feg/gateway/policydb/flow_parser.go:139 | digits with an optional sign are read within 64 bits |
| FlowParser.AtoiRefuses | feg/gateway/policydb/flow_parser.go:139 | anything else is an error |
| FlowParser.ProtocolMeans | feg/gateway/policydb/flow_parser.go:134-148 | `ip` is 0, and a number is what its low 32 bits name, else 0 |
| FlowParser.ProtocolKeptIff | feg/gateway/policydb/flow_parser.go:135-148 | a protocol number below 2^63 is kept iff it has a name, and becomes IP iff its low 32 bits are 0 or name nothing |
| FlowParser.WrappedProtocolIsRenamed | feg/gateway/policydb/flow_parser.go:135-148 | a number beyond 32 bits has no name and is parsed as the protocol its low 32 bits name |
| FlowParser.UnnamedBecomesTcp | feg/gateway/policydb/flow_parser.go:135-148 | 2^32 + 6 is parsed as TCP |
| FlowParser.HugeProtocolFails | feg/gateway/policydb/flow_parser.go:135-148 | a number from 2^63 on is an error |
| PlmnFilter.GetPlmnVals | feg/gateway/plmn_filter/plmn_filter.go:28-52 | the loop builds the specified table |
| PlmnFilter.TableEntry | feg/gateway/plmn_filter/plmn_filter.go:37-50 | what the table knows about a prefix: whether it is configured alone, and else the last configured sixth digit |
| PlmnFilter.EmptyIff | feg/gateway/plmn_filter/plmn_filter.go:39-59 | the filter is off iff no id has five or six characters |
| PlmnFilter.FilterOffAcceptsAll | feg/gateway/plmn_filter/plmn_filter.go:54-62 | without a usable id every IMSI is accepted; otherwise one of fewer than five characters fails at run time |
| PlmnFilter.LastOfShadowedWins | feg/gateway/plmn_filter/plmn_filter.go:28-62 | of the six-digit ids that share five digits, the last configured one decides |
| PlmnFilter.AcceptsOnlyConfigured | feg/gateway/plmn_filter/plmn_filter.go:54-62 | an accepted IMSI starts with a configured id |
| PlmnFilter.FilterAgreesIffNotShadowed | feg/gateway/plmn_filter/plmn_filter.go:28-62 | the filter accepts exactly the IMSIs with a configured prefix iff no two six-digit ids share five digits without that five-digit id configured |
| PlmnFilter.OrderIsIrrelevant | feg/gateway/plmn_filter/plmn_filter.go:28-62 | without shadowing, order and repetition of the ids do not matter |
| TelecomCodecs.Assemble | feg/gateway/tgpp/utils.go:43-49 | the three octets of six digit values, with the filler for a two-digit MNC |
| TelecomCodecs.GetPlmnID | feg/gateway/tgpp/utils.go:28-51 | the octets of the first six characters, with the MNC length clamped |
| TelecomCodecs.EncodePLMNID | feg/gateway/diameter/avp.go:23-41 | the octets of a five- or six-character id, otherwise an error |
| TelecomCodecs.PlmnLayout | feg/gateway/diameter/avp.go:28-41 | which half of which octet holds which digit, and where the filler goes |
| TelecomCodecs.BytesAreValues | feg/gateway/diameter/avp.go:28-31 | a digit's byte is its value; what is not a digit is 0 in one encoder and wraps in the other |
| TelecomCodecs.PlmnEncodersAgree | feg/gateway/tgpp/utils.go:28-51 | for digit IMSIs and every MNC length, the PLMN id is the encoding of the five- or six-digit prefix |
| TelecomCodecs.PlmnReadsBack | feg/gateway/diameter/avp.go:21-41 | every five- or six-digit id is recovered from its octets |
| TelecomCodecs.PlmnEncodingIsInjective | feg/gateway/diameter/avp.go:21-41 | different digit ids have different octets |
| TelecomCodecs.DecodeMsisdn | feg/gateway/tgpp/utils.go:54-64 | the loop spells the low and the high half of each octet, skipping a high filler |
| TelecomCodecs.OctetDecodes | feg/gateway/tgpp/utils.go:56-62 | an octet gives the character of its low half, then that of its high half unless it is the filler |
| TelecomCodecs.NibbleCharIs | feg/gateway/tgpp/utils.go:58-61 | the character of n is the n-th from '0' on |
| TelecomCodecs.MsisdnReadsBack | feg/gateway/tgpp/utils.go:53-64 | decoding inverts TBCD packing for digit strings of every length |
| TelecomCodecs.EncodeUserLocation | feg/gateway/diameter/avp.go:47-74 | type, PLMN id, tracking area, PLMN id, cell; an error for an invalid PLMN length |
| TelecomCodecs.UserLocationReadsBack | feg/gateway/diameter/avp.go:43-74 | every field stands at its place and is read back in network byte order |
| TelecomCodecs.BigEndianOctets | feg/gateway/diameter/avp.go:70-72 | numbers stand most significant octet first |
| GatewayId.TakenNamesAreFew | orc8r/tools/fab/dev_utils.py:118-122 | consecutive taken names are at most as many as the gateways |
| GatewayId.NamesArePlain | orc8r/tools/fab/dev_utils.py:118-122 | N is printed digit by digit without a leading zero, so an empty network gets gw1 |
| Text.DecimalIsCanonical | feg/gateway/diameter/diameter_client.go:298-300 | digits without a leading zero are what their number prints as |
| GatewayId.NextAvailableGatewayId | orc8r/tools/fab/dev_utils.py:118-123 | the search ends and returns the least unused "gw" and N, in plain decimal, with N above the number of gateways, N at most twice that number plus one |

## Left out

- go-diameter, address resolution and dialling: a dial is an error, a conn without metadata or a fresh conn; a write succeeds or fails; closings by the peer are not tracked.
- Protobuf: marshalling is a parameter, assumed to read back what it accepts.
- Go channels: they are never closed, and waiting receivers are counted, not identified.
- Message flags and headers: an AVP is a code and a value, found by code at the top level.
- AddOriginAVPsToMessage, the other AVP builders and the client's configuration lookups.
- The goroutine scheduler's fairness: the theorems are about safety, and about what can happen next, except where prompt timers are assumed.
- SessionId.ExtractImsiFromSessionID: the error texts and the session id returned beside an error are not modelled, and TrimSpace trims ASCII spaces only.
- Strings are sequences of one-byte characters; multi-byte text is not modelled.
- FlowParser.ParseInvertsRender: ports and protocol numbers are those below 2^63, which Go's Atoi accepts; they come back modulo 2^32, as the conversions do.
- TelecomCodecs.GetPlmnID: IMSIs of fewer than six characters, on which the source stops with a run-time error, are excluded.
- The streamer client, the Redis connection set-up, the GTP, health, registry and RADIUS services, the deployment scripts and the web front end.
