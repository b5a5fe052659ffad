# Celte: verified models of the runtime's protocols

Celte is a distributed runtime for game servers. Peers hold entities, entities live in containers, and
peers talk by remote calls and property packets over message topics. This project models the parts of
the runtime that are protocols and state machines, and proves what they keep over whole runs.

| file | what it holds |
|---|---|
| `Options.dfy`, `Maps.dfy` | optional values; maps built key by key |
| `LruSpec.dfy`, `LruSet.dfy` | the duplicate filter of remote calls: a linked list with a map of node handles, and what it means on sequences |
| `RpcCaller.dfy` | promise table and retries of a call |
| `RpcProtocol.dfy`, `RpcCallee.dfy` | remote calls over a network that loses, repeats and reorders; the callee as the code runs it |
| `GhostPoll.dfy` | "changed since last poll" from two timestamps |
| `Replication.dfy`, `GhostSystem.dfy` | replication of properties from an owner to replicas and late joiners; the tables as the code updates them |
| `Peer.dfy` | one peer's entity and container registries and engine queue |
| `Transfer.dfy` | transfers of authority over any number of peers |
| `Leftovers.dfy`, `Overlap.dfy` | transfers that overlap: at one peer, and over all of them |
| `LateSubscriber.dfy` | a peer that subscribes to the target while a transfer is under way |
| `Quarantine.dfy` | quarantine and validity at one peer |
| `Handover.dfy` | an entity's properties across a transfer, at subscribers of the target and of both containers |
| `Removal.dfy`, `Subscription.dfy` | removing a container; subscriptions against the registry |
| `Dotenv.dfy` | loading environment variables: expansion of values, trimming, quotes |

`dafny verify dfyconfig.toml` checks everything.

## How the model is built

Operations that change state in the C++ code are methods of classes with the same fields. Each is
proved equal to a function on values (`Touch`, `Offer`, `Apply`, `ReceiveAt`, `DoSet`, `DoPoll`,
`DoUpdate`, `Uploaded`, `Take`, `Drop`, `Perform`, `DoSubscribe`, `Parse`/`Meaning`, ...), and those functions are
the steps of the state machines that the theorems speak of. A run is a sequence of steps each enabled
where it is taken. An accessor-protected block is one step. A peer handles its messages one at a time
(`system/common_src/CelteNet.cpp:20`), so finding and adding an id in the filter is one step.

- *Network of calls*: a message once sent may be delivered never, once or many times, in any order. A
  response carries its request's id both as its own and as the one it responds to, so the model keeps
  one id. A call draws a fresh id or repeats its own request.
- *Replication stream*: packets of a container reach a reader in order. A peer that joins a container asks
  the owner for a snapshot and opens its reader at the same time (`system/common_src/Grape.cpp:87-96`,
  `system/common_src/PeerService.cpp:248-256`), so attaching the reader, taking the snapshot, entity by entity, and
  installing it are steps in any order. Fetching a pending table and writing it to the stream count as one step
  at the moment of the fetch, since one worker does both and readers may lag behind.
- *Transfers*: take orders arrive in any order, drop orders fire at any later time, engine queues are
  first-in first-out. An entity is first registered by one server, under a container that server
  subscribes to (`system/common_src/exports.cpp:94-103`). The hypothesis on callers is that a transfer
  with an effect is not started while an earlier one of the same entity is under way.
- *JSON, protobuf*: values, packets and arguments are maps and strings; decoding is taken to invert
  encoding.

## Where the code does something else than promised

The model follows the code. Each item has an exact condition or a concrete input.

- The registry removes a container on any unsubscribe: `UpdateRefCount` looks at the pointer's use
  count, which is always one, and never at `refCount`. `ContainerSubscriptionComponent.hpp:28-32`
  promises that other references keep it. `Subscription.UnsubscribeKeepsPromiseIff`,
  `Subscription.SharedContainerIsLost`.
- Take and drop orders do not look at the current owner, so overlapping transfers can lose an entity.
  `Overlap.OverlappingTransferSettlesIff` says exactly when, `Overlap.OverlappingTransfersLoseEntity` shows one.
- A peer that subscribes to the target of a transfer under way and loads the entities listed does not enter
  them in its index. `LateSubscriber.LateSubscriberSettlesIff`.
- Pending values are lost while a container has no writer stream. `Replication.DropIsHarmlessIff`,
  `Replication.UnreadyContainerLosesFirstValue`.
- A snapshot that is installed after newer packets overwrites them, and packets sent between the snapshot and
  the attaching of the reader are missed. `Replication.QuietReplicaEqualsOwnerIff`,
  `Replication.LateSnapshotDiverges`, `Replication.LateReaderMissesValue`.
- Properties changed while a transfer is under way go to the source container's stream only, and nothing
  orders the two streams. `Handover.TransferKeepsPropertiesIff`, `Handover.TwoStreamsAgreeIff`,
  `Handover.LateChangeIsLost`, `Handover.SourceSpeaksLast`.
- A creation still queued brings an entity into a container that has been removed. `Removal.NoneLeftIff`,
  `Subscription.QueuedCreationOutlivesContainer`.
- `PeekProperties`, a reading operation, erases the property with the empty key.
  `Replication.PeekKeepsFullAgreementIff`, `Replication.EmptyKeyVanishes`.
- A take order for an entity without properties carries the JSON string `"{}"`, which the receiver
  reads as a property with an empty key; it does not show. Properties left at the receiver from before do.
  `GhostSystem.GhostSurvivesTransferIff`.
- A peer that calls itself drops its own reply, since request and response share an id.
  `RpcProtocol.ReplyCompletesIff`, `RpcProtocol.OwnReplyIsDropped`.
- With a clock that does not move, a changed property can stay unseen by polls.
  `GhostPoll.AgreesWithDirtyBitIff` says which clocks will do.
- In the partial text returned for a value with an unclosed `${`, the text before it appears twice.
  `Dotenv.UnclosedIsError`.
- `call` ignores the result of writing to the producer, so only an exception counts as a failure to send.

## Model

| member | source | states |
|---|---|---|
| LruSpec.AddAllKeepsMostRecent | system/include/CRPC.hpp:47-68 | after every sequence of adds the list holds no key twice and is the most recently added distinct keys, newest first, cut to capacity |
| LruSpec.MostRecentIsUnique | system/include/CRPC.hpp:36-41 | that description fits exactly one list, so it determines the set's whole state |
| LruSpec.RemoveIsCut | system/include/CRPC.hpp:51-55 | erasing a key takes out its one position and nothing else |
| LruSpec.ExactWindow | system/include/CRPC.hpp:97-104 | over every run an id is let through if and only if it is not among the last `capacity` ids let through; any capacity + 1 consecutive ids let through are pairwise distinct |
| LruSpec.FilterIsSound | system/include/CRPC.hpp:90-108 | at every point of a run the filter remembers exactly its last `capacity` accepted ids, newest first |
| LruSet.LinkedKeys.PushFront | system/include/CRPC.hpp:54-55 | the doubly linked list gains a fresh front node; all links and the other nodes are as before |
| LruSet.LinkedKeys.Unlink | system/include/CRPC.hpp:53-53 | the neighbours of a node, or the ends of the list, are linked past it and no other link changes |
| LruSet.LinkedKeys.Erase | system/include/CRPC.hpp:53-53 | the list loses the node whose handle is given, wherever it is; links and remaining order are kept |
| LruSet.LruSet.Add | system/include/CRPC.hpp:47-68 | list and handle map stay in agreement (each key maps to its own node, no duplicates, size within capacity) and together change as one add on the sequence |
| LruSet.LruSet.Detach | system/include/CRPC.hpp:52-54 | erasing through the stored handle removes that key from the list and no other |
| LruSet.LruSet.Evict | system/include/CRPC.hpp:58-63 | a full list and the map both lose the least recently used key |
| LruSet.LruSet.EvictIfFull | system/include/CRPC.hpp:57-63 | for a new key: afterwards there is room, only the oldest key of a full list is gone, and the map does not know the new key |
| LruSet.LruSet.PutInFront | system/include/CRPC.hpp:64-66 | a key not listed becomes the front and maps to its new node |
| LruSet.LruSet.Contains | system/include/CRPC.hpp:73-78 | membership in the map is membership in the list |
| LruSet.UniqueTaskManager.Run | system/include/CRPC.hpp:97-104 | runs the task if and only if its id is not among the last `capacity` ids run; the state stays that of the whole history of offers |
| RpcCaller.EveryRunIsSound | system/common_src/CRPC.cpp:133-164 | over every run of calls, replies, duplicates and forgets no promise is completed twice; a reply or forget completes exactly the promise waiting under its id and changes no other entry |
| RpcCaller.StoredIsWaiting | system/include/CRPC.hpp:279-284 | the stored promise of an id is that of its latest call, unless a reply or forget came after it |
| RpcCaller.ApplyKeepsSound | system/common_src/CRPC.cpp:133-164 | stored promises stay distinct and uncompleted; other ids keep their entries; at most one completion is added |
| RpcCaller.CallerStub.InstallPromise | system/include/CRPC.hpp:268-288 | a call stores a fresh, uncompleted promise under its id |
| RpcCaller.CallerStub.SolvePromise | system/common_src/CRPC.cpp:133-145 | completes and removes the promise under the id; an unknown id changes nothing |
| RpcCaller.CallerStub.ForgetPromise | system/common_src/CRPC.cpp:157-164 | completes the promise under the id with an exception and removes it |
| RpcCaller.CallObject.Call | system/include/CRPC.hpp:517-558 | for every outcome sequence: terminates within the bound, all attempts carry one id, the first answer is returned, nothing is returned exactly when all attempts failed, and only then the callback ran, once; a call to many peers is refused before any attempt |
| RpcCaller.CallObject.HandleFailure | system/include/CRPC.hpp:567-581 | either one retry fewer is left and the call goes on, or the callback runs and the call ends |
| RpcProtocol.RunKeepsInv | system/include/CRPC.hpp:97-104 | in every reachable state every reply under way or completed came from a handler run on the request it answers, at a peer the request was sent to |
| RpcProtocol.ReturnedValueIsHandlersResult | system/common_src/CRPC.cpp:263-299 | any value a call returns for an id is the result of the handler at its callee on the request with that id; the handler ran once if the callee let at most `capacity` ids through since it first let that id through |
| RpcProtocol.CallsHaveOneCallee | system/include/CRPC.hpp:268-284 | an id that expects a reply was issued by one caller to one callee |
| RpcProtocol.OnceInWindow | system/include/CRPC.hpp:97-104 | an id first let through within the window is let through once |
| RpcProtocol.ReplyCompletesIff | system/common_src/CRPC.cpp:263-299 | in every reachable state an arriving response completes a promise if and only if its id is not among the last `capacity` ids let through and a promise waits under it; otherwise the promise table stays as it is |
| RpcProtocol.OwnReplyIsDropped | system/common_src/CRPC.cpp:361-364 | hence a promise of a peer that called itself is completed only by a reply let through more than `capacity` ids apart from the request |
| RpcProtocol.CallCanSucceed | system/include/CRPC.hpp:268-288 | a fresh call to another peer, handled and answered there, completes the caller's promise with the handler's result |
| RpcCallee.CalleeStub.TryHandleRequest | system/common_src/CRPC.cpp:263-274 | a remembered id changes nothing; a new response completes the promise waiting under its id with its reply; a new request is answered, if it asks for that and its scope is known, with what its method yields, or with null if the method is missing, its arguments are ill-formed or it raises; all of it is the protocol's receive step |
| RpcCallee.CalleeStub.Dispatch | system/common_src/CRPC.cpp:287-365 | a response solves its promise; a request is handled, with a missing method, ill-formed arguments and exceptions told apart from results, and answered unless no reply was asked for or the scope is unknown |
| RpcCallee.AnswerOf | system/common_src/CRPC.cpp:315-365 | the answer to a call is the registered method's result on well-formed arguments, else null |
| GhostPoll.PollIsDirtyFlag | system/common_src/GhostSystem.cpp:183-194 | under a strictly increasing clock every sequence of sets and polls answers as one dirty bit per property would |
| GhostPoll.PollIsDirtyFlagFromStart | system/common_src/GhostSystem.cpp:12-40 | the same from the empty property set, timestamps of new properties included |
| GhostPoll.AgreesWithDirtyBitIff | system/common_src/GhostSystem.cpp:12-40 | all sequences of sets and polls answer as dirty bits do if and only if the clock moves from the first initial sync to the first update, does not go back at the next reading, and is strictly increasing from there on |
| GhostPoll.StepMatches | system/include/GhostSystem.hpp:17-24 | one set or poll: same answer, and the timestamps still encode the bit |
| GhostPoll.PollSeesChangeIff | system/common_src/GhostSystem.cpp:23-33 | on any clock: a poll after a change yields the value if and only if the clock has passed the last sync |
| GhostPoll.FirstPollSeesValueIff | system/include/GhostSystem.hpp:17-24 | on any clock: a new property is seen by the first poll if and only if the clock moved after its initial last sync |
| GhostPoll.Properties.SetValue | system/common_src/GhostSystem.cpp:12-21 | reports whether the value was new or different; otherwise no field changes and no time is read |
| GhostPoll.Properties.AcknowledgeSync | system/common_src/GhostSystem.cpp:35-40 | only the last sync of an existing property moves |
| GhostPoll.Properties.PollUpdate | system/common_src/GhostSystem.cpp:183-194 | yields an unsynced value and acknowledges it, or changes nothing |
| Replication.RunKeepsInv | system/common_src/GhostSystem.cpp:54-166 | in every reachable state of updates, drains, joins, snapshots taken entity by entity, deliveries and peeks, what a stream has still to tell agrees with the owner, and every snapshot, for each entity overlaid by the packets since the owner looked at it and then by the pending table, shows exactly the owner's properties of its container |
| Replication.JoinerIsCorrectIff | system/common_src/ETTRegistry.cpp:133-192 | in every reachable state, whenever its reader attached and its snapshot came, a joiner overlaid by what is in flight and pending shows the owner's properties if and only if each value sent between the owner's look at its entity and the installing was there then or is written again |
| Replication.QuietReplicaEqualsOwnerIff | system/common_src/GhostSystem.cpp:90-166 | with nothing pending or in flight joiner and owner show the same if and only if that is so, and always if the joiner had read no further than where the answer began |
| Replication.UpdateKeepsInv | system/common_src/GhostSystem.cpp:54-78 | a local change, skipped or queued over an earlier one, keeps the invariant |
| Replication.DrainKeepsInv | system/common_src/GhostSystem.cpp:125-166 | draining a pending table into a packet keeps it |
| Replication.DeliverKeepsInv | system/common_src/GhostSystem.cpp:90-104 | applying the next packet keeps it |
| Replication.AttachKeepsInv | system/common_src/Container.cpp:56-83 | a reader attaching anywhere in the stream, before or after the snapshot, keeps it |
| Replication.BeginKeepsInv | system/common_src/ETTRegistry.cpp:179-182 | beginning to list entities for a joiner keeps it: an entity without properties then is covered |
| Replication.LookKeepsInv | system/common_src/ETTRegistry.cpp:182-190 | looking at one entity, at its own time, keeps it |
| Replication.SendKeepsInv | system/common_src/ETTRegistry.cpp:191-192 | sending the list once all entities to do were looked at keeps it |
| Replication.InstallKeepsInv | system/common_src/ETTRegistry.cpp:145-152 | installing a snapshot, however late, keeps it |
| Replication.SnapshotIsCorrect | system/common_src/ETTRegistry.cpp:179-192 | a snapshot, with any packets already in the stream sent again over it, older than the snapshot or not, makes a correct replica |
| Replication.PeekKeepsInv | system/common_src/GhostSystem.cpp:196-211 | erasing the empty key changes nothing that a snapshot can show |
| Replication.PeekKeepsFullAgreementIff | system/common_src/GhostSystem.cpp:199-202 | counting the empty key as well, a peek keeps agreement if and only if there was no such key |
| Replication.EmptyKeyVanishes | system/common_src/GhostSystem.cpp:199-202 | a run in which a value under the empty key reaches a joiner and a peek then takes it from the owner alone |
| Replication.DropKeepsReplicaIff | system/common_src/GhostSystem.cpp:149-166 | a drain without a writer stream keeps one replica correct if and only if the stream alone brings it every drained value |
| Replication.DropIsHarmlessIff | system/common_src/GhostSystem.cpp:139-158 | for the owner: such a drain does no harm to any correct replica if and only if the table has nothing to show |
| Replication.UnreadyContainerLosesFirstValue | system/common_src/GhostSystem.cpp:155-158 | the first value written before the stream is ready never arrives |
| Replication.LateSnapshotKeepsReplicaIff | system/common_src/ETTRegistry.cpp:145-152 | a reader attached in time, with the snapshot installed over the packets it heard, is a correct replica if and only if every slot that both carry with different values is written again |
| Replication.LateSnapshotDiverges | system/common_src/ETTRegistry.cpp:145-152 | a run after which joiner and owner differ with nothing pending or in flight: the value changed after the snapshot and was heard before it |
| Replication.LateReaderMissesValue | system/common_src/Grape.cpp:87-96 | another: the first value was sent after the snapshot and before the reader attached |
| Replication.BatchOrderIsIrrelevantIff | system/common_src/GhostSystem.cpp:135-147 | all orders of a drained batch give every replica the same state if and only if no two packets give one slot different values |
| Replication.CompatibleOrdersAgree | system/common_src/GhostSystem.cpp:90-104 | packets on disjoint entities, or in agreement, can be applied in any permutation |
| GhostSystem.GhostSystem.SetProperty | system/common_src/GhostSystem.cpp:12-21 | one slot is written; reports whether it was new or different |
| GhostSystem.GhostSystem.UpdatePropertyState | system/common_src/GhostSystem.cpp:54-78 | writes and queues one slot for a locally owned entity whose value changes; otherwise changes nothing |
| GhostSystem.UpdateRefines | system/common_src/GhostSystem.cpp:54-78 | on the nested tables this is the protocol's update step, for containers with and without a writer stream |
| GhostSystem.GhostSystem.ApplyUpdateToEntity | system/common_src/GhostSystem.cpp:80-88 | one entity's properties are overlaid by the update |
| GhostSystem.GhostSystem.SetAll | system/common_src/GhostSystem.cpp:95-99 | setting item by item, in any order, overlays the map |
| GhostSystem.GhostSystem.ApplyUpdate | system/common_src/GhostSystem.cpp:90-104 | applying a packet entity by entity overlays all properties by it, as the protocol's delivery does |
| GhostSystem.GhostSystem.FetchNextUpdate | system/common_src/GhostSystem.cpp:125-133 | takes every pending table and leaves an empty one behind |
| GhostSystem.GhostSystem.ProcessUpdate | system/common_src/GhostSystem.cpp:135-147 | each container with a writer stream and something to send gets one packet more, the others none |
| GhostSystem.GhostSystem.ReplicateData | system/common_src/GhostSystem.cpp:149-166 | appends to the container's stream if there is one |
| GhostSystem.GhostSystem.UploadRound | system/common_src/GhostSystem.cpp:116-121 | one round of the worker takes every pending table and appends it to the container's stream if there is one |
| GhostSystem.UploadedIsUploads | system/common_src/GhostSystem.cpp:125-166 | and is, container by container in whatever order, the protocol's drain step or the loss of the table |
| GhostSystem.GhostSystem.PeekProperties | system/common_src/GhostSystem.cpp:196-211 | all properties under non-empty keys, or none; the empty key is erased |
| GhostSystem.GhostSystem.TryRemoveEntity | system/common_src/GhostSystem.cpp:170-176 | forgets one entity's properties only |
| GhostSystem.OrderOverlays | system/common_src/AuthorityTransfer.cpp:159-167 | after applying a take order a peer shows the sender's properties over its own, those of an entity without properties included |
| GhostSystem.GhostSurvivesTransferIff | system/common_src/AuthorityTransfer.cpp:94-94 | so it shows what the sender shows if and only if it showed no key before that the sender lacks |
| Peer.PeerRegistries.TransferAuthority | system/common_src/AuthorityTransfer.cpp:61-108 | no change and no order for an unknown, quarantined or invalid entity, nor for one already in the target unless told to ignore that; else the entity is quarantined, nothing else changes, and a server sends one move from its old owner to the target, a client none |
| Peer.PeerRegistries.ExecTakeOrder | system/common_src/AuthorityTransfer.cpp:194-234 | a held entity gets the new owner and leaves quarantine, another is queued for creation; a server adds it to the container's index |
| Peer.PeerRegistries.FireDropOrder | system/common_src/AuthorityTransfer.cpp:129-157 | without the target container the entity is invalidated, quarantined and queued for deletion; a server takes it off the source's index |
| Peer.PeerRegistries.RunEngineTask | system/common_src/ETTRegistry.cpp:19-39 | registers, re-owns, unregisters or invalidates one entity; throws exactly on unregistering a valid one |
| Peer.PeerRegistries.SendEntityDeleteOrder | system/common_src/ETTRegistry.cpp:216-240 | a valid entity is invalidated and quarantined and nothing else changes; it is announced on its container exactly if that is registered and locally owned; no change and no announcement for an unknown or invalid one |
| Peer.PeerRegistries.ExecDeleteOrder | system/common_src/Container.cpp:108-113 | a delete order from the network only queues the entity to be marked invalid |
| Peer.PeerRegistries.DeleteEntitiesInContainer | system/common_src/ETTRegistry.cpp:262-291 | marks exactly the container's entities and queues deletions of each of them, possibly many, and of no other |
| Peer.PeerRegistries.CreateContainerIfNotExists | system/common_src/Container.cpp:133-154 | reports creation exactly when the id was not registered; a new cell has count one; an empty id becomes a fresh one |
| Peer.PeerRegistries.UpdateRefCount | system/common_src/Container.cpp:156-171 | a registered container goes, with its entities marked and queued for deletion |
| Transfer.TransfersConverge | system/common_src/AuthorityTransfer.cpp:61-268 | after any run of transfers that do not overlap per entity, in any interleaving over any peers, an entity with nothing under way is held by exactly the subscribers of its last target, all agreeing on it, valid and unquarantined, and is in that container's index on servers and in no other |
| Transfer.DeliveryAlwaysSettles | system/common_src/AuthorityTransfer.cpp:194-268 | from any reachable state, delivering what is under way in any order ends after boundedly many steps with every transferred entity settled on its last target |
| Transfer.RunKeepsInv | system/common_src/AuthorityTransfer.cpp:129-268 | what holds at every peer for every entity in every reachable state, whichever of take and drop came first |
| Transfer.StartKeepsInv | system/common_src/AuthorityTransfer.cpp:61-108 | starting a transfer keeps it |
| Transfer.TakeKeepsInv | system/common_src/AuthorityTransfer.cpp:194-234 | an arriving take order keeps it |
| Transfer.DropKeepsInv | system/common_src/AuthorityTransfer.cpp:129-157 | a firing drop order keeps it |
| Transfer.TaskKeepsInv | system/common_src/ETTRegistry.cpp:115-131 | an engine task keeps it and does not throw |
| Transfer.EngineNeverThrows | system/common_src/ETTRegistry.cpp:29-39 | in such a run no engine task ever unregisters a valid entity |
| Transfer.DeliveriesEnd | system/common_src/AuthorityTransfer.cpp:194-268 | deliveries alone are bounded by the orders and tasks left |
| Leftovers.StaleDropKeepsSettledIff | system/common_src/AuthorityTransfer.cpp:129-157 | a drop left over from an earlier move leaves an entity settled at a peer if and only if it is not held there, or the drop's target is subscribed to and its source is not the current index |
| Leftovers.StaleTakeKeepsSettledIff | system/common_src/AuthorityTransfer.cpp:206-232 | a take left over leaves it settled if and only if the entity is held and the take is for the container it is settled on |
| Leftovers.LeftoversSettleIff | system/common_src/AuthorityTransfer.cpp:129-268 | a settled entity is settled again after every way of delivering the orders still to come, other entities' among them, if and only if each of those about it is harmless in that sense |
| Leftovers.OverlapSettlesIff | system/common_src/AuthorityTransfer.cpp:61-268 | while an entity is under way from c to d, another transfer to f starts at a peer that has it under c or d: at each peer it ends settled on f after every way of delivering what there is about it if and only if the overlap is harmless there, a test on subscriptions, orders still to come and holding at that moment |
| Overlap.OverlappingTransferSettlesIff | system/common_src/AuthorityTransfer.cpp:61-268 | in any reachable state, that transfer ends with the entity settled on f at all peers, however everything is delivered, if and only if the overlap is harmless at every peer |
| LateSubscriber.LateSubscriberSettlesIff | system/common_src/ETTRegistry.cpp:133-163 | a peer that subscribes to d while an entity is under way there, and is listed it, ends settled on d whatever comes before and after the list, if and only if it keeps no index and the entity, if still held, is valid and not quarantined |
| LateSubscriber.UnlistedNeverSettles | system/common_src/AuthorityTransfer.cpp:194-268 | if it is not listed, no delivery settles it there |
| Overlap.OverlappingTransfersLoseEntity | system/common_src/AuthorityTransfer.cpp:61-268 | a run of two servers, the second transfer started as soon as the first take arrived, after which nothing is under way and the entity is lost at one and unindexed at the other |
| Handover.TransferKeepsPropertiesIff | system/common_src/GhostSystem.cpp:58-76 | after every run of a transfer, to a container of the same server or of one that did not know the entity: a subscriber of the target alone that has heard everything shows the entity as the target's server does if and only if, for every slot not written again since it applied the order, packets heard before do not contradict the order and late changes that server has are in it |
| Handover.TwoStreamsAgreeIff | system/common_src/GhostSystem.cpp:90-104 | in every interleaving of the two streams, a subscriber of both that has heard everything shows it so if and only if slots on which the source spoke last, though the target had spoken, carry the same value from both, and late changes another server has not got are overwritten or in the order |
| Handover.RunKeepsInv | system/common_src/AuthorityTransfer.cpp:61-108 | in every reachable state each server shows what order, late changes, streams and tables say, and each subscriber what it has heard and been sent, in that order |
| Handover.LateChangeIsLost | system/common_src/GhostSystem.cpp:58-76 | runs in which a value changed between the start and the taking over never reaches the target's subscribers, nor another server |
| Handover.SourceSpeaksLast | system/common_src/GhostSystem.cpp:90-104 | a run that leaves a subscriber of both with the older of two values |
| Quarantine.TakeBetweenTransfers | system/common_src/AuthorityTransfer.cpp:68-84 | on one registration of an entity a take order comes between any two effective transfers, whatever else happens |
| Quarantine.InvalidStaysInvalid | system/common_src/AuthorityTransfer.cpp:72-75 | once invalid, a registration stays so and no transfer of it has an effect again |
| Quarantine.EventKeepsFlags | system/common_src/AuthorityTransfer.cpp:208-211 | of all events only a take lifts quarantine and none makes an entity valid again |
| Quarantine.WhatInvalidates | system/common_src/ETTRegistry.cpp:216-222 | a delete order invalidates; a drop exactly when its target is unknown; a container removal exactly the container's entities |
| Removal.DrainIsPerEntity | system/common_src/ETTRegistry.cpp:19-39 | draining any queue of creations, deletions and delete orders leaves of each entity what its own tasks, in order, make of it |
| Removal.DrainThrowsIff | system/common_src/ETTRegistry.cpp:32-35 | and throws exactly when the tasks of some entity do |
| Removal.DeleteArrivesInvalidates | system/common_src/Container.cpp:108-113 | after a delete order from the network and a drain, whatever was queued before has happened and the entity, if it is then registered, stays so, invalid |
| Removal.DeleteArrivesAtIdle | system/common_src/Container.cpp:108-113 | from an idle engine exactly that entity becomes invalid and everything stays registered |
| Removal.DeleteOrderReachesSubscribers | system/common_src/ETTRegistry.cpp:216-240 | the order goes out exactly for a valid entity of a container owned there, and once all engines have drained the entity is valid neither at the server nor at any subscriber |
| Removal.RemovalIsExact | system/common_src/ETTRegistry.cpp:262-291 | removing a container and draining, whatever was queued before: each of its entities is marked, goes through its earlier tasks and is deleted once, every other goes through its earlier tasks only; and exactly when that throws |
| Removal.NoneLeft | system/common_src/ETTRegistry.cpp:115-131 | no entity of the container remains if no creation in it was queued |
| Removal.NoneLeftIff | system/common_src/ETTRegistry.cpp:115-131 | for any queue, none remains if and only if of every entity with a creation in it queued the last creation is for another container or is undone by a deletion after it |
| Removal.NoneLeftIffCreatedOnce | system/common_src/ETTRegistry.cpp:115-131 | when nothing else is queued for such entities, if and only if each of them is already in the container |
| Removal.RemovalAmongDeletions | system/common_src/ETTRegistry.cpp:262-291 | with deletions queued only, exactly its entities and their ghost properties go, besides invalid ones already queued; it throws exactly when an earlier deletion names an entity still valid and of another container |
| Removal.DrainDeletes | system/common_src/ETTRegistry.cpp:29-39 | draining deletions removes exactly the invalid entities named, however often each is named, and throws exactly when a valid one is named |
| Removal.RemovalFromEmptyQueue | system/common_src/GhostSystem.cpp:170-176 | from an idle engine nothing else goes and nothing throws |
| Subscription.OneComponentMatchesRegistry | system/common_src/ContainerSubscriptionComponent.cpp:5-61 | with one component, in every reachable state, with any transfers, orders, registrations, deletions and engine tasks between, its subscriptions are the registered containers, each has reference count two, and each is locally owned exactly if the peer is a server and the subscribe that created it asked for that |
| Subscription.UnsubscribeRemovesEntities | system/common_src/Container.cpp:156-171 | for any queue: an effective unsubscribe followed by a drain leaves no entity of the container if no creation in it was queued, and in general if and only if each queued creation in it is superseded or undone |
| Subscription.QueuedCreationOutlivesContainer | system/common_src/AuthorityTransfer.cpp:213-226 | a run in which a take order arrives before an unsubscribe and its creation is performed after it |
| Subscription.UnsubscribeAmongDeletions | system/common_src/Container.cpp:156-171 | with deletions queued only, as by earlier unsubscribes, it takes no other valid entity away, and exactly when the drain throws |
| Subscription.SubscribeKeepsPromise | system/common_src/ContainerSubscriptionComponent.cpp:5-43 | subscribing keeps every subscribed container registered, for any number of components |
| Subscription.UnsubscribeKeepsPromiseIff | system/include/ContainerSubscriptionComponent.hpp:28-34 | unsubscribing keeps that if and only if no other component is subscribed to the container |
| Subscription.SharedContainerIsLost | system/common_src/Container.cpp:156-171 | a run of two components in which one loses its container to the other's unsubscribe |
| Subscription.SubscriptionComponent.SubscribeTo | system/common_src/ContainerSubscriptionComponent.cpp:5-43 | subscribing twice does nothing and yields nothing; otherwise the id asked for, or a fresh one for an empty id, is subscribed to and returned; a container that existed keeps its cell; a created one has two references and is owned on a server that asked for it |
| Subscription.SubscriptionComponent.UnsubscribeFrom | system/common_src/ContainerSubscriptionComponent.cpp:45-61 | does what the state machine's unsubscribe says; nothing without a subscription |
| Dotenv.ResolveVars | system/include/laserpants/dotenv/dotenv.h:253-324 | the loop over positions terminates and computes text and success as the three forms of a value below say |
| Dotenv.ParseIsLossless | system/include/laserpants/dotenv/dotenv.h:194-220 | the reading spells the value back and each name in it ends where it should |
| Dotenv.ParseReadsSpelling | system/include/laserpants/dotenv/dotenv.h:194-220 | every well-formed reading is found back from its spelling, so each value has exactly one |
| Dotenv.VarStartIsDollar | system/include/laserpants/dotenv/dotenv.h:194-201 | the start search finds the first `$`, and the tag is `${` exactly when a brace follows |
| Dotenv.EndOfVar | system/include/laserpants/dotenv/dotenv.h:213-220 | the end search, and the skip after it, stop where the variable found from the reading ends |
| Dotenv.NameOf | system/include/laserpants/dotenv/dotenv.h:286-293 | cutting tags off the decorated text and trimming gives the variable's name, with or without the space that ended it |
| Dotenv.OnlyNamesMatter | system/include/laserpants/dotenv/dotenv.h:295-300 | a value's expansion depends on the variables it names only |
| Dotenv.VariableIsReplaced | system/include/laserpants/dotenv/dotenv.h:286-307 | text, a variable and a rest resolve to the text, the variable's value and what the rest resolves to; without a value the variable leaves nothing and the whole is not ok |
| Dotenv.NameIsTrimmed | system/include/laserpants/dotenv/dotenv.h:291-295 | white space after a name, and all from a NUL on, makes no difference |
| Dotenv.UnclosedIsError | system/include/laserpants/dotenv/dotenv.h:281-283 | a tag that is never closed is an error |
| Dotenv.NoDollarUnchanged | system/include/laserpants/dotenv/dotenv.h:310-323 | text without `$` comes back unchanged and ok |
| Dotenv.RTrim | system/include/laserpants/dotenv/dotenv.h:228-230 | the longest prefix not ending in white space; only white space is cut |
| Dotenv.LTrim | system/include/laserpants/dotenv/dotenv.h:223-225 | the longest suffix not starting with white space; only white space is cut |
| Dotenv.Environment.DoInit | system/include/laserpants/dotenv/dotenv.h:326-365 | the loop over lines applies them in order, each in the environment the lines before it made |
| Dotenv.LoadTouchesOnlyAssigned | system/include/laserpants/dotenv/dotenv.h:133-139 | loading removes no variable, changes only variables named on a line, and keeps existing ones if they are to be preserved |
| Dotenv.LastAssignmentWins | system/include/laserpants/dotenv/dotenv.h:326-365 | without preserving, a variable has the value of the last line that names it and expands |
| Dotenv.FirstAssignmentIsKept | system/include/laserpants/dotenv/dotenv.h:359-359 | when preserving, a new variable has the value of the first such line |
| Dotenv.NeverSetIsUnchanged | system/include/laserpants/dotenv/dotenv.h:334-358 | a variable no line sets stays as it was, set or not |
| Dotenv.QuotedValueIsExact | system/include/laserpants/dotenv/dotenv.h:367-381 | a quoted value without `$` is stored exactly, white space and inner quotes included, whatever white space surrounds it |
| Dotenv.LineIsTrimmed | system/include/laserpants/dotenv/dotenv.h:336-344 | a line with white space around name and value assigns the name the value, its quotes stripped |
| Dotenv.UnquotedValueIsTrimmed | system/include/laserpants/dotenv/dotenv.h:343-359 | an unquoted value without `$` is stored without the white space around it |
| Dotenv.VariableIsStored | system/include/laserpants/dotenv/dotenv.h:347-359 | a value with a variable is stored with the variable's value in its place, or the line is skipped if it has none |

## Left out

- Topics, Redis, HTTP and process control, all of `master/` and `automations/`: plumbing around the protocols.
- JSON and protobuf text, and the exception `ApplyUpdate` catches on a value that is not a string.
- Threads inside one accessor-protected block, and the moment between two accessor blocks of one operation.
- Wall-clock times and sleeping: a drop order fires at any step after it arrived.
- Engine hooks, native handles, payloads, logging.
- Liveness of retries: a reply that lands between a timeout and the retry completes the abandoned promise, so eventual success is not what the code ensures.
- A call with a non-positive timeout waits for its reply without end: an attempt in the model always comes to one of its outcomes.
- `WriterStreamPool`, `UniqueProcedures`, `ClientRegistry`, the input buffer, `SetEntityQuarantined`, `SetEntityValid` as a public setter: they would only add easy members.
- Transfer.TransfersConverge: subscriptions are fixed during a run; subscribing to the target meanwhile is in `LateSubscriber`, at one peer.
- Transfer.RunKeepsInv: only servers start transfers, since a client's call quarantines the entity without sending any order.
- Replication.RunKeepsInv: an entity stays with one container during a run; a move between containers is in `Handover`.
- Replication.QuietReplicaEqualsOwnerIff: as above, and a drain without a writer stream is not a step of these runs; `Replication.DropIsHarmlessIff` states what it does.
- Handover.TransferKeepsPropertiesIff: one transfer; a target's server that already knew the entity from the source's stream is not covered.
- GhostSystem.GhostSystem.SetProperty: leaves out the timestamps, which `GhostPoll` models for one entity.
- Peer.PeerRegistries.RunEngineTask: a created entity's ghost properties are a member of a set here; their values are in `GhostSystem`.
- Dotenv.LTrim: the original erases from the string in place; the model returns the rest.
- Dotenv.RTrim: as above.
- Reading the file of variables: its lines are a parameter, and a file that cannot be opened has none.
