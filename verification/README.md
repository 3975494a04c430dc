# A verified model of TopLib's protocols and state machines

TopLib is a Go infrastructure library. This project models the parts of it that are protocols,
state machines or codecs of their own, and proves what they keep over every input and every
interleaving. `dafny verify dfyconfig.toml` checks everything.

| file | models |
|---|---|
| `GoStrings.dfy`, `Payload.dfy` | the string functions underneath the Redis keys, and the retry payload codec |
| `RetryProtocol.dfy` | the distributed retry protocol as a transition system over real key texts; mutual exclusion |
| `RetryLocks.dfy`, `RetryTermination.dfy` | no orphaned lock; termination and the bounds on handler calls |
| `RetryIndex.dfy`, `RetryMaximum.dfy` | exactly when an index leaves the policies; exactly how many calls one notification can cause |
| `RetryRest.dfy`, `RetrySingle.dfy` | exactly when keys or locks are left behind for good; one subscriber: counts and delays |
| `Sender.dfy`, `Receiver.dfy`, `Shutdown.dfy` | the WebSocket send and receive pumps as interleaved steps, each by itself and joined |
| `Registry.dfy`, `ClientManager.dfy` | the client registry: its step semantics, and the manager object that performs the steps |
| `ManagerLoop.dfy` | the manager's event loop and its callers on unbuffered channels |
| `Bits.dfy`, `Snowflake.dfy` | bitwise arithmetic and the snowflake id generator |
| `TryChain.dfy` | the try/catch/else/finally chain against a reference semantics of structured exceptions |
| `Pbe.dfy` | password-based encryption with CBC, for any hash and block permutation |
| `RedisView.dfy`, `Transactions.dfy`, `JetStream.dfy` | key namespaces, transaction wrappers, the acknowledge loop |

## How to read the model

* A concurrent protocol is a `State`, an `Event` with its nondeterminism as fields, a predicate
  `Enabled` and a function `Step`; a `Run` is any sequence of enabled events. Theorems are about all
  runs. Time (key expiry, tickers, timeouts), lost messages and failing commands are events.
* Panics that would end the Go process (a send on a closed channel, a second close, an index out of
  range) are a `fault` in the state, never a precondition of a step.
* Sequential objects are classes whose methods update their fields, and each method is tied to a
  function on values, about which the theorems are stated.
* What is not part of the repository is a parameter: the hash, the block cipher and base64 in
  `Pbe`, clock readings in `Snowflake`, codec results in `Receiver`, steps and failures in
  `Transactions`.

## Findings where the code differs from what one would expect

* Retry protocol: mutual exclusion needs no condition on values, because every decoded value is
  free of `||` and so no lock key can equal a retry key. But a value that contains `||` forges the
  count that its first message is read with. Below -1, as with `x||-7`, a re-arm indexes `policies`
  with a negative number; `PoliciesInBounds` says that this is exactly when, provided the first
  policy is positive at all.
* Retry protocol: a value read with the count -1, such as `x||-1`, gets one round of calls more than
  there are policies. More than N + ... + N^L calls from one notification are reachable if and only
  if the count is -1 and all policies are positive (`ExceedsIffMinusOne`). `MostCalls` gives the exact
  maximum for every value, every list of policies and every number of subscribers, and termination
  holds for all of them (`Terminates`).
* Retry protocol: a policy that is not positive sets a key without expiry, which wakes nobody. A
  reliable run can come to rest with keys left in the store exactly when there is such a policy
  (`RestsWithKeysIff`), and with a lock held for good exactly when the first policy is positive and a
  later one is not (`RestsLockedIff`).
* Sender: the `IsRunning` check does not prevent a send on the closed channel
  (`CheckIsNotEnough`). Before and during Stop alike, the fault is to be reckoned with exactly when a
  call is in progress (`FaultIffSendInProgress`).
* Receiver: Stop waits for the pump and not for the processing goroutines, so a reply can still be
  sent after it has returned, whenever a processor and a sender are set (`ReplyOutlivesStop`);
  `ReplyAfterCancelIff` says exactly which replies. Stopping the receiver first and the sender next
  is therefore not enough (`ReceiverFirstIsNotEnough`); `ShutdownIff` says when it is.
* Receiver: a message dropped because `messageChan` is full is still processed and may be replied to.
* Registry: a live client is lost from the user index by registering another session of its user, and
  by kicking, by session id, another session that the user still has, since the kick deletes the
  user's entry whichever session it names. These are the only two ways (`LosesIff`); what is lost
  stays lost, and no kick by user id reaches it (`KickReachesIffNoLoss`, with the runs of
  `SecondSessionHidesFirst` and `KickHidesOther`).
* Manager: its event loop answers a stop signal by calling Stop, which ends in a send that only the
  loop itself could receive. So `Start` never returns, a second Stop never returns, and nothing sent
  to the manager afterwards arrives (`StartNeverReturns`). Without any stop signal, one broadcast to
  a client whose buffer is full and whose writer has ended does the same
  (`BroadcastBlocksForGood`); `ServedIff` gives the exact condition.
* Snowflake: the overflow branch leaves `number` at 4096, which is or-ed into the worker field. Ids of
  one worker repeat exactly under the condition of `DistinctUnlessRepeated`. Ids of two workers
  coincide exactly under the condition of `WorkersCollideIff`, and they do (`BusyNeighboursCollide`).
* Try chain: an uncaught panic whose value is not an error comes out converted to one.
* Encryption: trimming replaces the padding check, so a plaintext that ends in a byte 1 to 8 is
  not recovered.
* `WarpSession` returns no error also when the handler decides to roll back.

## Model

| member | source | states |
|---|---|---|
| `Payloads.RoundTrip` | libs/redis/redis_notification.go:136-156 | a channel name ending in an encoded payload decodes to that payload if and only if the value has no `:`, no `\|\|` and no final `\|`, and the count fits 32 signed bits |
| `Payloads.DecodedIsClean` | libs/redis/redis_notification.go:136-152 | whatever the channel, a decoded value is one that survives re-encoding and a decoded count is a 32-bit integer |
| `Payloads.DecodeBarFree` | libs/redis/redis_notification.go:136-156 | a value without `\|\|` is read back from a clean value, with its own count or with 0 |
| `Payloads.AlwaysDecodes` | libs/redis/redis_notification.go:136-156 | every retry key decodes, whatever its value |
| `Payloads.NestedPayload` | libs/redis/redis_notification.go:136-156 | a value that is itself an encoded payload is read back as that inner payload, count included |
| `GoStrings.ParseItoa` | libs/redis/redis_notification.go:150-155 | formatting and 32-bit parsing are inverse exactly on the 32-bit signed range |
| `RetryProtocol.IdentityInjective` | libs/redis/redis_notification.go:79-88 | different node names or goroutine numbers give different lock owner texts |
| `RetryProtocol.KeysDisjoint` | libs/redis/redis_notification.go:74-93 | no retry key is the lock key of a value free of `\|\|` |
| `RetryProtocol.SafeStep` | libs/redis/redis_notification.go:74-133 | every step keeps that a subscriber between lock and release owns the lock of its value |
| `RetryProtocol.MutualExclusion` | libs/redis/redis_notification.go:79-133 | in every run, with SETNX and GET as separate steps and commands or replies lost, no two subscribers are in the handler for one value |
| `RetryProtocol.OnlyOwnerDeletes` | libs/redis/redis_notification.go:90-131 | a lock cell is never overwritten, and only a release by its current owner removes it |
| `RetryProtocol.StoredAsPolicies` | libs/redis/redis_notification.go:74-93 | in every run each key for a next attempt has the text `retry-<topic>:<value>\|\|<count>` and the delay `policies[count]`, and each lock the text `retry-<topic>:<value>` and the identity of a subscriber |
| `RetryProtocol.EntersIff` | libs/redis/redis_notification.go:79-116 | a handler is entered exactly when SETNX is answered and the lock was free, or GET is answered with the caller's own identity |
| `RetryProtocol.FirstCounted` | libs/redis/redis_notification.go:136-156 | a value without `\|\|` is first read with the count 0, and one that is an encoded payload with the count it carries |
| `RetryLocks.LocksAttended` | libs/redis/redis_notification.go:108-131 | in reliable runs every held lock belongs to a subscriber that is busy with its value, or has a retry key set or a message queued for it |
| `RetryLocks.QuiescentHoldsNoLock` | libs/redis/redis_notification.go:108-131 | a reliable run at rest has an empty store |
| `RetryLocks.Progress` | libs/redis/redis_notification.go:102-133 | while every key that is set has an expiry, some reliable step is enabled unless everything is at rest |
| `RetryLocks.RestsEmpty` | libs/redis/redis_notification.go:102-133 | with all policies positive, a reliable run that cannot continue without a new notification has emptied the store |
| `RetryRest.RestsWithKeysIff` | libs/redis/redis_notification.go:74-77 | a reliable run can come to rest with keys in the store if and only if some policy is not positive, the first one or, given a subscriber, any |
| `RetryRest.RestsLockedIff` | libs/redis/redis_notification.go:74-131 | a reliable run can come to rest with a lock held if and only if there is a subscriber, the first policy is positive and a later one is not |
| `RetryTermination.StepWeight` | libs/redis/redis_notification.go:102-133 | every step, a faulting one included, pays for itself out of a weight over pending keys, queued messages and goroutine positions, to which a notification adds the weight of the count it is first read with |
| `RetryTermination.CallsBoundedByDepth` | libs/redis/redis_notification.go:114-131 | when handlers ask for a next attempt only below count l, a notification causes at most N + ... + N^r calls, r being the rounds from its first count on through consecutive positive policies below l |
| `RetryTermination.CallsBounded` | libs/redis/redis_notification.go:74-77 | in any run the handler calls per notification are at most N + ... + N^L for a first count of at least 0, N + ... + N^(L+1) for -1, and N below -1 |
| `RetryTermination.Terminates` | libs/redis/redis_notification.go:102-133 | the number of steps of any run, with any values, is bounded by its notifications and their rounds, and by a fixed number for each notification |
| `RetryIndex.PoliciesInBounds` | libs/redis/redis_notification.go:74-77 | an index outside `policies` is reachable from notifications of a value if and only if its first message is read with a count below -1 and the first policy is positive |
| `RetryIndex.SafeAndUnsafeValues` | libs/redis/redis_notification.go:74-77 | values without `\|\|` never reach it; an encoded payload does exactly when its count is below -1 and the first policy is positive |
| `RetrySingle.SingleSubscriber` | libs/redis/redis_notification.go:114-131 | one subscriber and one notification first read with count d: calls carry counts d+1, d+2, ..., at most L-d of them (one for d below -1 or at least L), keys are set with the first policy and then those from d+1 on, and the pending key carries the last of these; for a value without `\|\|` all policies in order |
| `RetryMaximum.Attained` | libs/redis/redis_notification.go:102-133 | for any value, policies and number of subscribers a run without losses or panic makes the full N + ... + N^r calls from one notification |
| `RetryMaximum.MostCalls` | libs/redis/redis_notification.go:102-133 | N + ... + N^r is exactly the most calls that one notification can cause |
| `RetryMaximum.ExceedsIffMinusOne` | libs/redis/redis_notification.go:114-131 | more than N + ... + N^L calls from one notification are reachable if and only if its first count is -1 and all policies are positive |
| `RetryMaximum.MinusOneExceeds` | libs/redis/redis_notification.go:136-156 | with positive policies the value `x\|\|-1` reaches more than N + ... + N^L calls |
| `Sender.Conservation` | queue/message_sender.go:91-149 | accepted messages are those written, then at most one taken, then at most 256 buffered, in acceptance order |
| `Sender.SendBlocksIff` | queue/message_sender.go:91-102 | with the channel open a call is blocked exactly while 256 accepted messages wait for the pump |
| `Sender.CloseFrameMeaning` | queue/message_sender.go:61-73 | a Close frame is the last frame ever written, and every message ever accepted was written before it in order |
| `Sender.FramesWritten` | queue/message_sender.go:118-147 | the frames on the connection are, in order, one for each successful write, ping and close |
| `Sender.CloseWrittenIff` | queue/message_sender.go:118-126 | a Close frame is written if and only if the pump comes to the closed and drained channel and the write succeeds |
| `Sender.AcceptedAsGiven` | queue/message_sender.go:91-102 | the accepted messages are those the callers gave, in the order of their sends, and a call is in progress exactly until its send, refusal or timeout |
| `Sender.OrderlyEnd` | queue/message_sender.go:61-73 | from every reachable state with a live pump and no send in progress some run of Stop writes everything accepted, in order, and then the Close frame |
| `Sender.EndedPumpIsSilent` | queue/message_sender.go:118-147 | a failed write, a failed ping, a seen cancellation or the closed channel is followed by no further frame |
| `Sender.StopJoinsPump` | queue/message_sender.go:61-73 | when Stop has returned, a started pump has ended |
| `Sender.PoliteCallersAreSafe` | queue/message_sender.go:91-102 | if no send is in progress when Stop begins and none begins later, no run sends on the closed channel |
| `Sender.FaultIffSendInProgress` | queue/message_sender.go:61-102 | from any state, whether Stop has begun or not, and without new calls, that fault is reachable if and only if a call is in progress |
| `Sender.CheckIsNotEnough` | queue/message_revice.go:202-214 | a run in which every call follows a true `IsRunning` still reaches the fault |
| `Receiver.NeverSendsOnClosed` | queue/message_revice.go:63-74 | no interleaving of Start, Stop, workers and readers sends on the closed `messageChan` |
| `Receiver.EveryFrameAccounted` | queue/message_revice.go:102-171 | each frame read has the one fate its content allows, and the channel's messages are those of the delivered frames in order |
| `Receiver.FateDecided` | queue/message_revice.go:135-171 | the fate of each frame exactly: dropped only while 100 delivered messages wait for the reader, cancelled only by the context case, otherwise delivered |
| `Receiver.TakesAll` | queue/message_revice.go:112-131 | whatever frames come, some run reads them all |
| `Receiver.ReadErrorEnds` | queue/message_revice.go:118-126 | after a read error no frame is read |
| `Receiver.ConsumedInOrder` | queue/message_revice.go:158-165 | what a reader received is an in-order subsequence of the decoded messages |
| `Receiver.AtMostOneReply` | queue/message_revice.go:167-215 | a frame gets a goroutine exactly when it was delivered or dropped for a full channel, and at most one reply |
| `Receiver.ReplyNeedsAnswer` | queue/message_revice.go:185-214 | a reply is sent only for a message whose handler returned a non-empty answer without an error |
| `Receiver.CancelStopsProcessing` | queue/message_revice.go:174-200 | after the cancellation no handler is entered, and only goroutines past their second check reply |
| `Receiver.ReplyAfterCancelIff` | queue/message_revice.go:174-214 | after the cancellation a frame without a reply can still get one if and only if its goroutine is past its second check |
| `Receiver.ReplyOutlivesStop` | queue/message_revice.go:63-74 | a run from the start in which Stop has returned and a reply is still to come exists if and only if a processor and a sender are set |
| `Shutdown.JointSafety` | queue/message_revice.go:202-214 | the receiver's and the sender's guarantees hold in every joint run |
| `Shutdown.ShutdownIff` | queue/message_revice.go:202-214 | once the receiver is being stopped, a reply can hit the sender's closed channel if and only if a call is in progress, a goroutine is about to send, or one is about to ask a running sender |
| `Shutdown.ReceiverFirstIsNotEnough` | queue/message_revice.go:63-74 | a run from the start in which the receiver's Stop has returned, the sender is running with no call in progress, and the fault is still ahead |
| `Registry.ClosedAtMostOnce` | libs/server/ws_client_manager.go:55-82 | over every admissible sequence of steps `clients` is exactly the registered clients not yet closed, none is closed twice, none is sent to after its close |
| `Registry.LiveIff` | libs/server/ws_client_manager.go:55-132 | over every admissible run a client is live if and only if it was registered and no later step unregisters it, kicks its session, kicks its user while the index leads to it, or stops all |
| `Registry.KickClosesOwnClient` | libs/server/ws_client_manager.go:108-116 | every index entry is its user's latest session, and a kick by user closes at most that user's latest client |
| `Registry.LosesIff` | libs/server/ws_client_manager.go:58-124 | a step takes the index entry of a client that stays live if and only if it registers that user again or kicks, by session id, another mapped session of that user |
| `Registry.KickReachesIffNoLoss` | libs/server/ws_client_manager.go:108-124 | over every run from its registration on, a live client is closed by a kick of its user if and only if no step has lost it |
| `Registry.KickHidesOther` | libs/server/ws_client_manager.go:118-124 | after two registrations of one user and a kick of the first session the second client is live and not found |
| `Registry.CompletenessBoundary` | libs/server/ws_client_manager.go:58-68 | an index that leads to every live client stays so if and only if the step does not register a user with a live session |
| `Registry.SecondSessionHidesFirst` | libs/server/ws_client_manager.go:58-61 | after two registrations of one user from the empty registry the first client is live, and no number of kicks by user id closes it |
| `Registry.KickFindsLiveClient` | libs/server/ws_client_manager.go:108-124 | with one live session per user a kick by user closes that user's live client, despite stale entries |
| `ClientManagers.Handle.Close` | libs/server/ws_client.go:156-160 | closes the client and returns the connection's error; a second close panics |
| `ClientManagers.Handle.Send` | libs/server/ws_client.go:65-67 | queues the message, blocks on a full buffer, panics on a closed client |
| `ClientManagers.ClientManager.Register` | libs/server/ws_client_manager.go:58-61 | enters any client, also a closed one or one with a used session id, in both maps |
| `ClientManagers.ClientManager.Unregister` | libs/server/ws_client_manager.go:63-68 | if its session is mapped, closes the given client, or panics exactly when it was closed, and deletes that mapping only; never touches `userIdMap` |
| `ClientManagers.ClientManager.KickClientByUserId` | libs/server/ws_client_manager.go:108-116 | closes the client the index leads to and deletes its two entries, or changes nothing if there is none; panics exactly when the step is a fault |
| `ClientManagers.ClientManager.KickClientBySessionId` | libs/server/ws_client_manager.go:118-124 | closes the mapped client only and deletes its mapping and its user's entry, or changes nothing if there is none; panics exactly when the step is a fault |
| `ClientManagers.ClientManager.Broadcast` | libs/server/ws_client_manager.go:70-74 | succeeds exactly when every mapped client is open with room, and then each gets the message once and no other client does; otherwise it panics at a closed client or blocks at a full one |
| `ClientManagers.ClientManager.Stop` | libs/server/ws_client_manager.go:126-132 | closes every mapped client and deletes it and its user from both maps, keeping other index entries, or panics exactly when one of them was closed before |
| `ManagerLoop.StartNeverReturns` | libs/server/ws_client_manager.go:75-80 | in every run Start never returns, at most one Stop does, and after that nothing sent to the manager arrives |
| `ManagerLoop.ServedIff` | libs/server/ws_client_manager.go:55-97 | a caller blocked in a send to the manager can still return if and only if no stop signal has been taken, no send has hit a closed client, and the loop does not stand at a full client whose writer has ended |
| `ManagerLoop.BroadcastBlocksForGood` | libs/server/ws_client_manager.go:70-74 | a run without a stop signal in which a broadcast blocks the loop, and the unregistration of the client it stands at, for good |
| `ManagerLoop.MapFollowsRequests` | libs/server/ws_client_manager.go:58-68 | in every run a client is in the map exactly as the last registration, unregistration, kick or emptying says |
| `ManagerLoop.BroadcastOnce` | libs/server/ws_client_manager.go:70-74 | from a broadcast to the next select, unless one is kicked, every mapped client's buffer gains exactly one message |
| `Snowflake.NewUuidWorker` | libs/uuid/uuid.go:30-40 | a worker exactly for ids 0 to 1023, with zero timestamp and number |
| `Snowflake.UuidWorker.GetId` | libs/uuid/uuid.go:42-62 | the call, with its clock-spinning loop, takes the abstract step: new state and id |
| `Snowflake.UnmarshalRoundTrip` | libs/uuid/uuid.go:60-74 | the or of the shifted fields is their sum, fits a non-negative int64, and unmarshals to worker, number and whole seconds |
| `Snowflake.IdFields` | libs/uuid/uuid.go:60-60 | what an id holds, also for number 4096, which sets the low bit of the worker field |
| `Snowflake.StrictlyIncreasing` | libs/uuid/uuid.go:42-62 | without overflow and with a clock that never goes back, ids strictly increase |
| `Snowflake.DistinctUnlessRepeated` | libs/uuid/uuid.go:42-62 | a worker's ids are pairwise different if and only if no call of an odd worker comes in the millisecond an overflow waited for |
| `Snowflake.FieldsOfIssued` | libs/uuid/uuid.go:42-62 | every id of a run is composed of its call's reading, worker and number or, when the call overflowed, of the odd worker and number 0 |
| `Snowflake.WorkersCollideIff` | libs/uuid/uuid.go:48-60 | two calls of different workers return the same id if and only if the workers are an even one and its successor, the even one's call overflowed, both ids are of one millisecond, and the other call has number 0 or overflowed |
| `Snowflake.OverflowId` | libs/uuid/uuid.go:50-60 | an overflowing call of a run returns what the worker with the low bit set returns as its first id in the millisecond waited for |
| `Snowflake.BusyMillisecondRepeats` | libs/uuid/uuid.go:48-58 | 4097 calls of an odd worker in one millisecond and one in the next return an id twice |
| `Snowflake.BusyNeighboursCollide` | libs/uuid/uuid.go:48-60 | 4097 calls of an even worker in one millisecond and one call of its successor in the next return the same id |
| `TryChain.TryHandler.AddCatch` | libs/errors/try_catch_chain.go:102-110 | appends a handler after those already registered |
| `TryChain.TryHandler.SetDefaultCatch` | libs/errors/try_catch_chain.go:150-157 | the default handler in force is the last one given |
| `TryChain.TryHandler.SetElse` | libs/errors/try_catch_chain.go:187-194 | the else part in force is the last one given |
| `TryChain.TryHandler.SetFinally` | libs/errors/try_catch_chain.go:216-223 | the finally part in force is the last one given |
| `TryChain.TryHandler.HandleError` | libs/errors/try_catch_chain.go:69-88 | the handler loop, default and rethrow do what the reference semantics says about an error |
| `TryChain.TryHandler.Do` | libs/errors/try_catch_chain.go:50-90 | `Do` has the events and outcome of the reference semantics, nested chains included |
| `TryChain.TryCatch` | libs/errors/try_catch_func.go:34-47 | returns the error that a panic is converted to, and none when the body returns |
| `TryChain.FirstMatchIsFirst` | libs/errors/try_catch_chain.go:70-77 | the chosen handler matches and no handler before it does; none is chosen exactly when none matches |
| `TryChain.IsIff` | libs/errors/try_catch_chain.go:70-77 | an error matches if and only if some error along its chain of causes is the target |
| `TryChain.ChainMeaning` | libs/errors/try_catch_chain.go:50-90 | what a chain does, by positions: body; after a return the last Else; after a panic the first matching Catch, else the last DefaultCatch, on the converted error, else the panic; then the last Finally, whose panic takes precedence |
| `TryChain.FinallyIsDeferred` | libs/errors/try_catch_chain.go:52-57 | for any Finally body: the chain is itself without Finally, followed by that body, whose panic takes precedence |
| `TryChain.FinallyOnceAndLast` | libs/errors/try_catch_chain.go:52-57 | a mark of the Finally in force is the last event and occurs once, in every case |
| `TryChain.ElseFollowsReturn` | libs/errors/try_catch_chain.go:60-67 | for any Else body: after a panic the chain is itself without Else; after a return the Else follows, unprotected by the chain's handlers, and Finally comes last |
| `TryChain.ElseIffReturns` | libs/errors/try_catch_chain.go:60-67 | a mark of the Else in force occurs in the whole run if and only if the try body returns |
| `TryChain.PassesThrough` | libs/errors/try_catch_chain.go:52-88 | a panic that no chain of a stack catches runs their Finally parts inside out and arrives as one error |
| `TryChain.NearestHandlerCatches` | libs/errors/try_catch_chain.go:69-88 | the nearest chain with a handler runs it on that error, after the inner Finally parts |
| `TryChain.BareChainTransparent` | libs/errors/try_catch_func.go:23-29 | a chain without handlers leaves a panic as it is if and only if its value is an error |
| `Pbe.GetDerivedKey` | libs/jwt/PBEWhithMD5AndDES.go:12-18 | key and vector are the halves of the last of a chain of hashes, the first of password and salt, each further one of its predecessor, `count` of them and at least one |
| `Pbe.Pad` | libs/jwt/PBEWhithMD5AndDES.go:72-75 | 1 to 8 bytes, all equal to their number, up to a full block |
| `Pbe.TrimRight` | libs/jwt/PBEWhithMD5AndDES.go:102-102 | the longest prefix that does not end in a byte 1 to 8 |
| `Pbe.EncryptBlocks` | libs/jwt/PBEWhithMD5AndDES.go:83-85 | in the buffer filled in place each block is the encryption of the text block combined, byte by byte, with the cipher block before it, the first with the vector |
| `Pbe.DecryptBlocks` | libs/jwt/PBEWhithMD5AndDES.go:98-100 | in the buffer filled in place each block is the decrypted block combined, byte by byte, with the cipher block before it |
| `Pbe.CbcInverse` | libs/jwt/PBEWhithMD5AndDES.go:83-100 | CBC decryption inverts CBC encryption for any block permutation |
| `Pbe.DoEncrypt` | libs/jwt/PBEWhithMD5AndDES.go:71-88 | the chained encryption, told by blocks and bytes, of the padded text under the derived key and vector |
| `Pbe.DoDecrypt` | libs/jwt/PBEWhithMD5AndDES.go:90-105 | the chained decryption without its trailing bytes 1 to 8, or a panic exactly on input not made of full blocks |
| `Pbe.Encrypt` | libs/jwt/PBEWhithMD5AndDES.go:20-33 | the encoded salt and ciphertext, or an error without salt |
| `Pbe.Decrypt` | libs/jwt/PBEWhithMD5AndDES.go:35-44 | an error on bad base64, a panic on a message shorter than its salt, otherwise the decryption |
| `Pbe.RoundTrip` | libs/jwt/PBEWhithMD5AndDES.go:71-105 | decrypting an encryption returns the text without its trailing bytes 1 to 8, hence the text exactly when it does not end in one |
| `Pbe.SealedRoundTrip` | libs/jwt/PBEWhithMD5AndDES.go:20-44 | the same for the public pair with its salt in front |
| `RedisViews.TruncateExpand` | libs/redis/redis_internal.go:10-18 | truncating undoes expanding, for any key, exactly when the prefix has no colon |
| `RedisViews.SharedKeyIffOverlapping` | libs/redis/redis_internal.go:10-12 | two views share a stored key if and only if one prefix with its colon begins the other |
| `RedisViews.ViewsIsolated` | libs/redis/redis_view.go:43-98 | no sequence of operations through one view is seen through a view whose prefix does not overlap |
| `RedisViews.RedisView.Set` | libs/redis/redis_view.go:74-90 | stores value and expiration under the expanded key and touches no other; fails on a malformed duration, changing nothing, or with the command |
| `RedisViews.RedisView.SetNX` | libs/redis/redis_view.go:43-52 | answers true exactly when the key was absent, the duration is understood and the command is answered, and then value and expiration are stored; a present entry and all other keys stay |
| `RedisViews.RedisView.Get` | libs/redis/redis_view.go:62-72 | the value under the expanded key, or an error if there is none or the command fails |
| `RedisViews.RedisView.Del` | libs/redis/redis_view.go:92-98 | removes the expanded keys and no others, and counts those that were stored; a command that fails before it reaches the server changes nothing |
| `Transactions.NewSessionWrapper` | libs/databases/common.go:89-97 | begins a transaction, or carries the error of begin |
| `Transactions.Execute` | libs/databases/common.go:99-108 | runs a step only without an earlier error, changes no committed data, carries the step's error, and after it the transaction is over if the rollback works |
| `Transactions.CommitAndClose` | libs/databases/common.go:110-116 | commits exactly when no error was carried and the commit succeeds |
| `Transactions.NoStepAfterFailure` | libs/databases/common.go:99-108 | the steps that ran are a prefix in which at most the last one failed |
| `Transactions.RunAllHistory` | libs/databases/common.go:99-108 | each step that runs takes the data that the one before it left |
| `Transactions.Chain` | libs/databases/common.go:89-116 | the committed data is the effect of all steps exactly when the returned error is nil, otherwise the initial data; the error is the first of begin's, a step's and the commit's |
| `Transactions.WarpSession` | libs/databases/common.go:58-79 | commits exactly on a commit decision without errors; otherwise, panics included, the data stays as it was; which error is returned |
| `JetStream.AtLeastOnce` | libs/nats/subscribe.go:269-314 | a message is acknowledged only after its handler returned, never with another subject, and no published message is lost |
| `JetStream.BatchHandled` | libs/nats/subscribe.go:298-314 | from a fetch to the next one without a panic, exactly the batch's matching messages are handled, in order, and exactly those whose ack took effect are acknowledged |
| `JetStream.CanBeHandled` | libs/nats/subscribe.go:286-302 | a published message that is not acknowledged can always be handed to the handler by the next fetch |
| `JetStream.CancelStopsFetching` | libs/nats/subscribe.go:277-282 | after the cancellation nothing is fetched |
| `JetStream.PanicEndsLoop` | libs/nats/subscribe.go:269-282 | from a handler's panic, or a seen cancellation, in any run on, nothing more is handled or acknowledged, and what was not acknowledged stays with the server |

## Left out

- RetryProtocol.Step, Sender.Step, Receiver.Step, ManagerLoop.Step, Shutdown.Step, JetStream.Step: goroutines interleave, so these are steps on values; update in place and aliasing are not captured.
- RetryProtocol: handlers that change the exported `Value` of the payload they are given, or pass that payload with its count to `PutNotification` themselves; other topics in the same view; keyspace messages other than expiry. Of a duration only its sign counts.
- Sender: a tick may come at any moment, also after the ticker was stopped; this allows more runs than the code has. Only one Start and one Stop.
- Receiver: reads and the processor's answers are events; `SetProcessor` and `SetSender` are fixed before the start.
- Registry: unsynchronised access to the maps from other goroutines. That a handle's `info` names the object (`Names`) stands for the identity of Go objects.
- ClientManagers.ClientManager.Broadcast: other goroutines do not empty buffers during the loop, so a send to a full buffer counts as blocking.
- ManagerLoop: a second Start, which panics on its closed `startChan`; a kick, or the closing of a client by a caller's Stop, is one atomic step, and data races on the maps are not captured.
- RedisViews: entries do not expire, and an expiration is stored as the command carries it; what the client library or server makes of a negative one is not modelled.
- TryChain: nil function values, `runtime.Goexit`, and errors with their own `Is` or several causes.
- Pbe: the fixed-salt pair, which differs only in where the salt comes from.
- Transactions: `SessionWrapper.Commit` and `Close` on their own, a step of a chain that panics before `CommitAndClose` is reached, and the DAO underneath.
- JetStream: the plain NATS branch, reconnecting, and unsubscribing.
- Redis hash, list, set, zset and geo wrappers, HTTP server, middleware, configuration, logging, JWT signing, JSON and protobuf codecs: forwarding to other libraries or easy members.
