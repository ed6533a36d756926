# A verified model of go-libp2p-pubsub

The repository vendors go-libp2p-pubsub: a node runs one event loop over channels, a router (floodsub or
gossipsub) that decides whom to send to, a validation pipeline, and a generated protobuf codec. This project
models those parts in Dafny and proves what they promise. Nothing here was executed.

Run `dafny verify dfyconfig.toml` to check it.

## How it is built

* **Wire codec** (`Varint`, `Skip`, `Codec`, `Encoder`, `Messages`, `RoundTrips`, `Merging`, `Fields`,
  `WireTheorems`). Decoding is specified on unbounded indices by `Codec.Decode`; the loops `Codec.Unmarshal`, `Skip.SkipRpc`,
  `Varint.ReadVarintLoop` work with 32- and 64-bit wraparound, as the Go code does, and are proved equal to it
  on every input. `Encoder.MarshalTo` writes into an array in place. A message type is a description of its
  fields (`Messages`): which numbers are varints or byte fields, what a field does to the message, and the
  pieces it is written as. `Fields` pins the format itself, tag byte by tag byte. The theorems about whole RPCs follow the Protocol Buffers Encoding specification,
  sections "Base 128 Varints", "Message Structure", "Last One Wins" and "Groups".
* **Message cache** (`MessageCache`, `CacheWindow`): the class, and what it holds after any sequence of
  operations, in terms of how many shifts ago a message was put.
* **Gossipsub router** (`Router`, `GossipSub`, `RouterSafety`, `RouterRuns`). `Router` says what each operation
  does as a relation between states; random choice and map order are left open. The classes of `GossipSub`
  update their maps in place and are proved, method by method, to be within those relations. `RouterSafety`
  proves that every operation keeps one invariant, and `RouterRuns` states what follows for every run over all
  interleavings of operations, queue drains and changes of the network. `Conservation` follows single GRAFTs
  and PRUNEs through those runs. `RouterOutcomes`, `AnswerOutcomes` and `HeartbeatOutcomes` say what each operation
  comes to for a single peer, topic or message, in terms of the tables alone. `Sending`, `Listing`, `Fanout`, `Handling` and `HeartbeatSteps` hold the lemmas
  for single loops. `SharedRpc` models the RPCs as objects, for the one place where an object is shared between
  peers.
* **Event loop** (`Loop`, `ChannelSafety`, `Announcements`, `Settling`, `LoopCases`, `EventLoop`). `Loop` is the
  state machine, with panics as outcomes, and with what each peer's writer has sent and what has arrived;
  `EventLoop` is the class, in which a send on a closed channel and a second close of it violate a precondition,
  and whose methods are steps of that machine.
* **Validation and deduplication** (`Validation`, `Pipeline`, `Pushing`, `PipelineSafety`, `PipelineProgress`): the
  classes, and the event loop, workers and validator goroutines interleaved at their atomic steps.
* **Flooding** (`FloodSub`, `FloodNet`, `Flooding`): floodsub's Publish, and one message in a network of nodes
  that run it.
* **Peer events** (`PeerEvents`, `Notifications`, `PeerEventRuns`, `Wakeups`): the coalescing log of a
  subscription, the event loop that feeds it, and the signal its readers wait for.

`Capacity` holds the sizes of the queues, `Options` the optional values, `Sizes` two facts about finite sets.

`PubSub` is one Go struct; its parts are modelled where they matter, each class with the fields its concern
touches: `GossipSub.PubSub` for the router, `EventLoop.PubSub` for channels and announcements,
`Notifications.PubSub` for topic membership, `Pushing.PubSub` for deciding on messages.

## Assumptions

* The seen cache does not expire within a run.
* Random choice and the order of map iteration are arbitrary; a map is iterated over the keys it has when the
  loop begins.
* Queues hold 32 entries (the constant in the code) and may be full; validation throttles may refuse at any time.
* `gossip < history` in the message cache and `0 < Dlo <= D <= Dhi`, as the defaults are (3 and 5; 4, 6, 12).
* A writer sends in order over its stream, and what it has taken from its channel may arrive any time later or
  not at all. Once the channel is closed, nothing more of that stream arrives.
* Where sessions are spoken of, a peer believes nothing of us as a session begins. What becomes of a peer that
  does is proved as well, see below.
* A nil slice, map or string is the empty one; a nil pointer is `None`.
* Peers, topics, message ids and clock readings are abstract values; signature verification is an arbitrary
  predicate; validators may answer anything.
* In `RouterRuns` a message id is handed to the router's Publish once. That is what
  `PipelineSafety.PublishedAtMostOnce` proves of the pipeline in front of it.

## Where the code falls short

Each of these is proved, with the exact condition under which the property does hold.

* A writer respawned for a connection that is declared dead but still up (pubsub.go:328-338) can leave the
  peer believing in a topic that was left, because the unsubscription was still in the channel, or had been
  taken by the old writer and was lost with its stream (comm.go:119-129):
  `Announcements.RespawnForgetsUnsubscription` gives a run for each. A respawn is safe, whatever the peer
  believes, exactly if what it discards, in the channel and in transit, is free of unsubscriptions from topics
  still left that no pending retry repeats: `Announcements.RespawnSafeIff`. A node that cannot tell what has
  arrived has to count all that its writer has taken: `Announcements.RespawnSafeUnseenIff`. Runs in which every
  respawn is safe converge (`Announcements.SessionsConverge`), and can always be brought to an end at which
  everyone knows the truth (`Settling.DeliveriesSettle`).
* The same respawn on the peer's side keeps its table of who is in which topic (pubsub.go:330-338), so that a
  session of ours that ended and began again in between begins with the old beliefs. About a topic left
  meanwhile the peer stays wrong: `Announcements.OldViewStaysWrong`. A session begins well exactly if every topic
  believed in is one we are in or a retry is pending that takes it back:
  `Announcements.ConvergingUnlessBegunBadly`.
* A second Cancel of a subscription whose topic has another one closes its channel twice (pubsub.go:436-445):
  `ChannelSafety.CancelTwice`.
* A blacklist filled by the application behind the event loop's back lets the branch at pubsub.go:308-313 close
  a channel that is closed again later: `ChannelSafety.BlacklistedElsewhereClosesTwice`. These two are the only
  ways to lose channel safety (`ChannelSafety.SafeUnlessMisused`), and both end in a panic
  (`ChannelSafety.MisuseLeadsToPanic`).
* The message cache, left alone, can advertise what it cannot serve if an id is put twice, for every size with
  2 <= gossip < history: `CacheWindow.RepeatedPutIsNotServable`. It needs its ids put once exactly for those
  sizes: `CacheWindow.DeduplicationNeededIff`.
* Message ids are author and sequence number run together (pubsub.go:645-647) and can clash for sequence
  numbers of different lengths: `Validation.IdsCanClash`, `Validation.IdsTellApart`.
* With an author other than the node that publishes, the author, and whoever is only reachable through it, do
  not get the message: `Flooding.NodesBehindTheAuthorAreMissed`. Flooding reaches every node behind subscribed
  ones exactly if the author is the origin or out of reach itself: `Flooding.FloodingReachesAllIff`.
* A list of GRAFT or PRUNE built from a loop variable's address names its last topic over and over
  (gossipsub.go:194-196, 479-490, 499-501, under the declared Go 1.12). The RPC that a heartbeat builds for a peer
  names all the meshes that the peer enters, or leaves, exactly if that is at most one; and the answer to GRAFTs
  all that it refuses: `Conservation.HeartbeatNamesAllIff`, `Conservation.AnswerNamesAllIff`.
* A message whose unrecognized bytes are not whole unknown fields does not survive a round trip:
  `WireTheorems.RpcRoundTripIff`.

## Model

| member | source | states |
|---|---|---|
| Varint.VarintReadBack | go-libp2p-pubsub/pb/rpc.pb.go:1289-1297 | a written varint, wherever it stands in a buffer, is read back with its value and its exact end |
| Varint.EncodingIsShortest | go-libp2p-pubsub/pb/rpc.pb.go:1289-1297 | whatever bytes a reader accepts for a word, the written form is no longer |
| Varint.ReadVarintLoop | go-libp2p-pubsub/pb/rpc.pb.go:1575-1590 | the shifting loop over 64-bit words returns value and next index of the varint at any index, or the overflow or end-of-input error, on every input |
| Varint.EncodeVarintLoop | go-libp2p-pubsub/pb/rpc.pb.go:1289-1297 | writes exactly the base-128 digits at the offset, leaves every other byte alone, returns the next offset |
| Varint.SovLoop | go-libp2p-pubsub/pb/rpc.pb.go:1557-1566 | counts exactly the bytes that encoding the word takes |
| Skip.SizeLocal | go-libp2p-pubsub/pb/rpc.pb.go:3032-3136 | the size of an unknown field depends on its own bytes only, through groups nested to any depth |
| Skip.GroupLocal | go-libp2p-pubsub/pb/rpc.pb.go:3095-3122 | the same for the rest of a group that has been entered |
| Skip.SkipRpc | go-libp2p-pubsub/pb/rpc.pb.go:3032-3136 | on any bytes the skipper terminates, reads in range, and returns the field's size or its error, a size past the end of the address space wrapping negative |
| Codec.Unmarshal | go-libp2p-pubsub/pb/rpc.pb.go:1570-1727 | the decoding loop with wrapping lengths and offsets accepts, refuses and computes the same as decoding on unbounded indices, for every message type and every buffer |
| Codec.DecodeConcat | go-libp2p-pubsub/pb/rpc.pb.go:1570-1727 | what follows an accepted buffer is decoded into the message that the buffer gave, for every message type |
| Merging.DecodeMerges | go-libp2p-pubsub/pb/rpc.pb.go:1570-1727 | for any message type whose fields do to a merged message what they do to its later part: a buffer is accepted into a merged message exactly if into the later part, with the merged result |
| Codec.AllUnknownAppend | go-libp2p-pubsub/pb/rpc.pb.go:1703-1720 | unrecognized bytes kept from two stretches are together whole unknown fields again |
| Encoder.SizeIsLength | go-libp2p-pubsub/pb/rpc.pb.go:1298-1556 | Size is the number of bytes that are written |
| Encoder.MarshalTo | go-libp2p-pubsub/pb/rpc.pb.go:825-869 | writes the message into the buffer in place, Size bytes from the offset on, within bounds and touching no other byte |
| Encoder.MarshalPiece | go-libp2p-pubsub/pb/rpc.pb.go:825-1287 | the same for one field: tag, then varint, or length and contents, sub-messages included |
| Encoder.RoundTrip | go-libp2p-pubsub/pb/rpc.pb.go:815-1287 | for any message type whose written fields rebuild its body, Unmarshal inverts Marshal, unknown fields included |
| Encoder.DecodeKeeps | go-libp2p-pubsub/pb/rpc.pb.go:1570-1727 | a property that every known field keeps holds of whatever is decoded, and what is kept as unrecognized is whole unknown fields |
| RoundTrips.SubOptsRoundTrip | go-libp2p-pubsub/pb/rpc.pb.go:1728-1835 | a subscription option is read back as written, absent and present-but-empty kept apart |
| RoundTrips.ContentRoundTrip | go-libp2p-pubsub/pb/rpc.pb.go:1836-2091 | the same for a message: from, data, sequence number, topics, signature, key |
| RoundTrips.ControlRoundTrip | go-libp2p-pubsub/pb/rpc.pb.go:2092-2281 | the same for a control message with all its lists |
| RoundTrips.IHaveRoundTrip | go-libp2p-pubsub/pb/rpc.pb.go:2282-2400 | the same for an IHAVE |
| RoundTrips.IWantRoundTrip | go-libp2p-pubsub/pb/rpc.pb.go:2401-2486 | the same for an IWANT |
| RoundTrips.TopicRefRoundTrip | go-libp2p-pubsub/pb/rpc.pb.go:2487-2660 | the same for a GRAFT or PRUNE |
| RoundTrips.KeyOptsRoundTrip | go-libp2p-pubsub/pb/rpc.pb.go:2820-3031 | the same for authentication and encryption options, negative enum values sign-extended to ten bytes included |
| RoundTrips.TopicRoundTrip | go-libp2p-pubsub/pb/rpc.pb.go:2661-2819 | the same for a topic descriptor |
| RoundTrips.DecodedRpc | go-libp2p-pubsub/pb/rpc.pb.go:1570-1727 | whatever Unmarshal builds has, at every depth, only whole unknown fields among its unrecognized bytes |
| Fields.RpcWritten | go-libp2p-pubsub/pb/rpc.pb.go:825-869 | an RPC is written as these bytes: tags 0a, 12, 1a, lengths, contents, in this order, and all that is in them likewise |
| Fields.ControlWritten | go-libp2p-pubsub/pb/rpc.pb.go:983-1039 | a control message: IHAVE 0a, IWANT 12, GRAFT 1a, PRUNE 22 |
| Fields.ContentWritten | go-libp2p-pubsub/pb/rpc.pb.go:917-971 | a message: from 0a, data 12, seqno 1a, topics 22, signature 2a, key 32 |
| Fields.SubOptsWritten | go-libp2p-pubsub/pb/rpc.pb.go:880-905 | a subscription option: 08 and 00 or 01, topic 12 |
| Fields.IHaveWritten | go-libp2p-pubsub/pb/rpc.pb.go:1052-1081 | an IHAVE: topic 0a, ids 12 |
| Fields.IWantWritten | go-libp2p-pubsub/pb/rpc.pb.go:1094-1117 | an IWANT: ids 0a |
| Fields.TopicRefWritten | go-libp2p-pubsub/pb/rpc.pb.go:1130-1171 | a GRAFT or PRUNE: topic 0a |
| Fields.KeyOptsWritten | go-libp2p-pubsub/pb/rpc.pb.go:1231-1287 | options: mode 08 as the 64-bit word its sign extends to, keys 12 |
| Fields.TopicWritten | go-libp2p-pubsub/pb/rpc.pb.go:1184-1218 | a topic descriptor: name 0a, auth 12, enc 1a |
| Fields.RpcRead | go-libp2p-pubsub/pb/rpc.pb.go:1570-1727 | reading a field with one of these tags adds the subscription option or message, or merges the control message, and nothing else |
| Fields.ControlRead | go-libp2p-pubsub/pb/rpc.pb.go:2092-2281 | reading tags 0a, 12, 1a, 22 adds an IHAVE, IWANT, GRAFT, PRUNE, in this order, and nothing else |
| Fields.ContentRead | go-libp2p-pubsub/pb/rpc.pb.go:1836-2091 | reading tags 0a to 32 sets from, data, seqno, adds a topic, sets signature, key, and nothing else |
| Fields.SubOptsRead | go-libp2p-pubsub/pb/rpc.pb.go:1728-1835 | 08 sets subscribe to whether the word is not zero, 12 the topic |
| Fields.IHaveRead | go-libp2p-pubsub/pb/rpc.pb.go:2282-2400 | 0a sets the topic, 12 adds an id |
| Fields.OneFieldRead | go-libp2p-pubsub/pb/rpc.pb.go:2401-2660 | 0a adds an id to an IWANT, and sets the topic of a GRAFT or PRUNE |
| Fields.KeyOptsRead | go-libp2p-pubsub/pb/rpc.pb.go:2820-3031 | 08 sets the mode to the low 32 bits of the word, signed, 12 adds a key |
| Fields.TopicRead | go-libp2p-pubsub/pb/rpc.pb.go:2661-2819 | 0a sets the name, 12 and 1a merge authentication and encryption options |
| Fields.OtherFieldKept | go-libp2p-pubsub/pb/rpc.pb.go:1703-1720 | a field of any other number, with a length, is kept with its bytes |
| Fields.FixedFieldKept | go-libp2p-pubsub/pb/rpc.pb.go:3067-3126 | so are eight bytes after a tag of wire type 1, four after one of wire type 5 |
| Fields.Refusals | go-libp2p-pubsub/pb/rpc.pb.go:1591-1602 | a known field with another wire type, an end of a group, and field zero are refused, each with its error |
| Fields.TruncatedRefused | go-libp2p-pubsub/pb/rpc.pb.go:1603-1702 | a known field cut off anywhere is refused |
| Fields.SkippedSizes | go-libp2p-pubsub/pb/rpc.pb.go:3032-3136 | after its tag an unknown field takes a varint, eight bytes, a length and as many bytes, or four bytes; wire types 6 and 7 are refused |
| Fields.GroupSkipped | go-libp2p-pubsub/pb/rpc.pb.go:3095-3122 | a group takes its start tag, any whole fields, and its end tag |
| Fields.VarintBytes | go-libp2p-pubsub/pb/rpc.pb.go:1289-1297 | seven bits to a byte, the lowest first, the high bit set on all but the last |
| Fields.VarintRead | go-libp2p-pubsub/pb/rpc.pb.go:1575-1590 | up to ten such bytes are read as their value, cut to 64 bits; more are an overflow |
| WireTheorems.RpcRoundTripIff | go-libp2p-pubsub/pb/rpc.pb.go:815-1727 | an RPC survives Marshal and Unmarshal exactly if its unrecognized bytes are whole unknown fields at every depth |
| WireTheorems.TopicRoundTripIff | go-libp2p-pubsub/pb/rpc.pb.go:1174-1287 | the same for a topic descriptor |
| WireTheorems.ReencodingNeverGrows | go-libp2p-pubsub/pb/rpc.pb.go:1298-1490 | re-encoding a decoded RPC never takes more bytes than it came from, and takes exactly Size bytes |
| WireTheorems.ReencodingIsStable | go-libp2p-pubsub/pb/rpc.pb.go:815-1727 | for all bytes that Unmarshal accepts, decoding what re-encoding yields gives the same RPC: unknown fields, groups, long varints, repeated optional fields and merged sub-messages included |
| WireTheorems.TopicReencodingIsStable | go-libp2p-pubsub/pb/rpc.pb.go:2661-3031 | the same for topic descriptors, whose enum values may grow |
| WireTheorems.UnmarshalNeverPanics | go-libp2p-pubsub/pb/rpc.pb.go:3135-3136 | no input makes Unmarshal of an RPC reach the panic at the end of the skipper |
| WireTheorems.TopicUnmarshalNeverPanics | go-libp2p-pubsub/pb/rpc.pb.go:2661-3031 | nor Unmarshal of a topic descriptor, of authentication options or of encryption options |
| WireTheorems.ConcatenatedRpcs | go-libp2p-pubsub/pb/rpc.pb.go:1668-1702 | two buffers of which the first is accepted are accepted as one exactly if the second is, and give the two RPCs merged: subscriptions, messages, and each list of a control message that both have, are appended; unrecognized bytes as well |
| WireTheorems.ConcatenatedTopics | go-libp2p-pubsub/pb/rpc.pb.go:2661-2819 | the same for topic descriptors: the last name stays, authentication and encryption options are merged, the last mode and all keys |
| MessageCache.MessageCache.Put | go-libp2p-pubsub/mcache.go:26-30 | the message is in the map and its entry last in the newest slot; nothing else changes |
| MessageCache.MessageCache.Get | go-libp2p-pubsub/mcache.go:32-35 | finds the message exactly if its id is in the map |
| MessageCache.MessageCache.GetGossipIDs | go-libp2p-pubsub/mcache.go:37-50 | the nested loops return the ids of the gossip slots that carry the topic, newest slot first, each entry once |
| MessageCache.MessageCache.Shift | go-libp2p-pubsub/mcache.go:52-61 | the ids of the oldest slot leave the map, every other slot ages by one, the newest is empty |
| CacheWindow.HistoryByAge | go-libp2p-pubsub/mcache.go:26-61 | after any operations, slot k holds exactly what was put k shifts ago, in order |
| CacheWindow.GossipIdsByAge | go-libp2p-pubsub/mcache.go:37-50 | after any operations, GetGossipIDs is exactly the ids of age below gossip that carry the topic, newest slot first |
| CacheWindow.MapByExpiry | go-libp2p-pubsub/mcache.go:26-61 | after any operations, an id is in the map exactly if no put of it has expired since some put of it |
| CacheWindow.MapIsWindow | go-libp2p-pubsub/mcache.go:26-61 | if each id is put once, the map is exactly the ids put fewer than history shifts ago |
| CacheWindow.AdvertisedIsServable | go-libp2p-pubsub/mcache.go:37-61 | if each id is put once, every advertised id can be served, also one shift later |
| CacheWindow.RepeatedPutIsNotServable | go-libp2p-pubsub/mcache.go:52-56 | for every size with 2 <= gossip < history, an id put again when its first entry is in the oldest slot is advertised after the next shift and cannot be served |
| CacheWindow.DeduplicationNeededIff | go-libp2p-pubsub/mcache.go:37-61 | without any assumption on the ids put, everything advertised can be served exactly if gossip <= 1 |
| Listing.ShufflePeers | go-libp2p-pubsub/gossipsub.go:666-671 | swapping in place with any earlier index permutes the list |
| GossipSub.PubSub.Announce | go-libp2p-pubsub/pubsub.go:488-503 | every peer whose queue has room is told once, exactly the others are to be retried |
| GossipSub.PubSub.HandleAddSubscription | go-libp2p-pubsub/pubsub.go:458-484 | the first subscription of a topic announces it and joins its mesh, any other only adds itself; exactly the peers with full queues are returned for a retry |
| GossipSub.PubSub.HandleRemoveSubscription | go-libp2p-pubsub/pubsub.go:436-452 | the last subscription of a topic announces that and leaves the mesh, any other only removes itself; exactly the peers with full queues are returned for a retry |
| GossipSub.GossipSubRouter.AddPeer | go-libp2p-pubsub/gossipsub.go:79-82 | the peer's protocol is recorded, nothing else changes |
| GossipSub.GossipSubRouter.RemovePeer | go-libp2p-pubsub/gossipsub.go:84-95 | the peer is gone from every mesh, every fanout, pending gossip and control, and nothing else changes |
| GossipSub.GossipSubRouter.SendRPC | go-libp2p-pubsub/gossipsub.go:318-357 | one peer's queue, pending gossip and control change as specified by Router.Send, and no other peer's |
| GossipSub.GossipSubRouter.PiggybackControl | go-libp2p-pubsub/gossipsub.go:566-612 | adds exactly the pending entries that agree with the current mesh, after those of the RPC |
| GossipSub.GossipSubRouter.GetPeers | go-libp2p-pubsub/gossipsub.go:614-634 | distinct gossipsub peers of the topic outside the filter, as many as asked for or all |
| GossipSub.GossipSubRouter.Publish | go-libp2p-pubsub/gossipsub.go:213-261 | the message is cached; floodsub peers, mesh or (picked if need be) fanout of its topics get it once, but for sender and author |
| GossipSub.GossipSubRouter.Join | go-libp2p-pubsub/gossipsub.go:263-287 | the mesh starts from the fanout, or from peers picked, and exactly those are sent a GRAFT; the fanout is given up |
| GossipSub.GossipSubRouter.Leave | go-libp2p-pubsub/gossipsub.go:289-304 | the mesh is given up and exactly its peers are sent a PRUNE |
| GossipSub.GossipSubRouter.HandleRPC | go-libp2p-pubsub/gossipsub.go:97-116 | grafts and prunes are applied, and the one answer asks for the unseen, serves the cached and refuses the unknown |
| GossipSub.GossipSubRouter.HandleIHave | go-libp2p-pubsub/gossipsub.go:118-148 | asks once for exactly the announced ids, of topics with a mesh, that were not seen, and not at all if there is none |
| GossipSub.GossipSubRouter.HandleIWant | go-libp2p-pubsub/gossipsub.go:150-173 | returns exactly the cached messages that are asked for, one for each id |
| GossipSub.GossipSubRouter.HandleGraft | go-libp2p-pubsub/gossipsub.go:175-199 | the peer enters the meshes it names; a PRUNE answers each topic without one |
| GossipSub.GossipSubRouter.HandlePrune | go-libp2p-pubsub/gossipsub.go:201-211 | the peer leaves the meshes it names |
| GossipSub.GossipSubRouter.Heartbeat | go-libp2p-pubsub/gossipsub.go:384-474 | flush, mesh maintenance with gossip, fanout expiry, fanout maintenance with gossip, coalesced GRAFT and PRUNE, cache shift, in this order and nothing else |
| GossipSub.GossipSubRouter.Flush | go-libp2p-pubsub/gossipsub.go:525-539 | for every peer, pending gossip leaves with pending control, then what control is left |
| GossipSub.GossipSubRouter.MaintainMesh | go-libp2p-pubsub/gossipsub.go:391-431 | each mesh below Dlo is filled to D as far as there are peers, each above Dhi cut to D; the lists name exactly the moved peers; for each mesh, D peers of the topic (or all) are picked, and those outside the mesh get one announcement of what the cache holds, no one else any |
| GossipSub.GossipSubRouter.ExpireFanout | go-libp2p-pubsub/gossipsub.go:433-440 | exactly the fanout and times of topics not published to for the time to live are dropped |
| GossipSub.GossipSubRouter.MaintainFanout | go-libp2p-pubsub/gossipsub.go:442-467 | each fanout keeps its peers still in the topic and is filled to D as far as there are peers; gossip for it goes out as for a mesh |
| GossipSub.GossipSubRouter.SendGraftPrune | go-libp2p-pubsub/gossipsub.go:476-507 | each listed peer is sent one RPC with its grafts and its prunes |
| GossipSub.GossipSubRouter.EmitGossip | go-libp2p-pubsub/gossipsub.go:509-523 | if the cache has ids for the topic, D gossipsub peers of it (or all) are picked, and exactly those outside the given set get one more announcement, of exactly these ids |
| RouterOutcomes.PublishReaches | go-libp2p-pubsub/gossipsub.go:213-261 | every connected peer with room that speaks floodsub in a topic of the message, or is in its mesh, or where there is none in its fanout, and is neither sender nor author, gets one RPC with just the message; no one else gets any |
| RouterOutcomes.PublishFanout | go-libp2p-pubsub/gossipsub.go:231-251 | a topic without mesh keeps a fanout with peers, else gets D gossipsub peers or all, and the time; no mesh, no other fanout or time changes; the message is cached |
| RouterOutcomes.JoinGrafts | go-libp2p-pubsub/gossipsub.go:263-287 | the mesh is the fanout there was, or D gossipsub peers or all; each connected one is sent a GRAFT, or has it pending if its queue is full; no one else is told anything |
| RouterOutcomes.LeavePrunes | go-libp2p-pubsub/gossipsub.go:289-304 | the mesh is gone; each connected peer of it is sent a PRUNE or has it pending; no one else is told anything |
| RouterOutcomes.SubscribeAnnounces | go-libp2p-pubsub/pubsub.go:458-503 | the first subscription is announced to every peer with room before anything else, any other to no one |
| RouterOutcomes.UnsubscribeAnnounces | go-libp2p-pubsub/pubsub.go:436-503 | the same for the end of the last one |
| RouterOutcomes.RemovedIsGone | go-libp2p-pubsub/gossipsub.go:84-95 | a removed peer is in no mesh or fanout and nothing is pending for it; every other peer is where it was |
| AnswerOutcomes.HandleAnswers | go-libp2p-pubsub/gossipsub.go:97-211 | the sender enters and leaves exactly the meshes its GRAFTs and PRUNEs name; it gets one answer exactly if an announced id is lacking, an asked one cached, or a GRAFT refused, with exactly those ids, those messages and that refusal; no one else is moved or sent anything |
| AnswerOutcomes.StaysRecent | go-libp2p-pubsub/mcache.go:26-61 | in every run, an id that gossip is pending about stays cached over as many heartbeats as the history is longer than the gossip window |
| AnswerOutcomes.GossipDelivers | go-libp2p-pubsub/gossipsub.go:118-173 | pending gossip, heard by a router that has joined the topic and lacks the id, is asked for; and the request, heard within that many heartbeats, is answered with the message |
| HeartbeatOutcomes.HeartbeatMesh | go-libp2p-pubsub/gossipsub.go:391-431 | a mesh below Dlo gains gossipsub peers of its topic up to D or all there are, one above Dhi is cut to D, any other stays |
| HeartbeatOutcomes.HeartbeatFanout | go-libp2p-pubsub/gossipsub.go:433-467 | a fanout goes exactly if last published to longer ago than its time to live, else keeps the peers still in the topic and is filled up to D |
| HeartbeatOutcomes.HeartbeatCache | go-libp2p-pubsub/gossipsub.go:470-474 | every slot of the cache ages by one, and the oldest ids go |
| HeartbeatOutcomes.HeartbeatTells | go-libp2p-pubsub/gossipsub.go:476-507 | a connected peer that enters meshes, or leaves some, is sent a GRAFT, or PRUNE, for one of them, or has it pending |
| HeartbeatOutcomes.HeartbeatAnnounces | go-libp2p-pubsub/gossipsub.go:509-523 | for each topic with a mesh or fanout and cached ids, D gossipsub peers or all are drawn, and each connected one outside is announced exactly these ids |
| HeartbeatOutcomes.HeartbeatGossipOnly | go-libp2p-pubsub/gossipsub.go:509-523 | and nothing else is announced, to no one else |
| RouterSafety.SendConserves | go-libp2p-pubsub/gossipsub.go:318-357 | every GRAFT and PRUNE of the RPC, and every pending one that agrees with the mesh, leaves or is pending again; messages, IWANT and gossip leave whole |
| RouterSafety.FlushConserves | go-libp2p-pubsub/gossipsub.go:525-539 | flush loses no entry that agrees with the mesh, and pending IHAVEs leave whole |
| Conservation.ControlConserved | go-libp2p-pubsub/gossipsub.go:318-612 | over every step of every kind, a pending GRAFT or PRUNE of a peer that stays connected, right before and after, is pending still or in an RPC on the peer's queue |
| Conservation.ControlReaches | go-libp2p-pubsub/gossipsub.go:318-612 | over every run, as long as the peer is connected and the entry right, it is pending still or some step on the way queued it |
| Conservation.HeartbeatNamesAllIff | go-libp2p-pubsub/gossipsub.go:476-507 | the RPC of a heartbeat names all the meshes a peer entered, or all it left, exactly if there is at most one |
| Conservation.AnswerNamesAllIff | go-libp2p-pubsub/gossipsub.go:175-199 | the answer to a GRAFT names all the topics refused exactly if there is at most one |
| RouterSafety.HeartbeatKeepsInv | go-libp2p-pubsub/gossipsub.go:384-474 | a heartbeat keeps control consistent, topics and meshes in step, and pending gossip servable across the cache shift |
| RouterSafety.HandleKeepsInv | go-libp2p-pubsub/gossipsub.go:97-116 | so does handling any incoming RPC |
| RouterSafety.PublishKeepsInv | go-libp2p-pubsub/gossipsub.go:213-261 | so does publishing an id for the first time |
| RouterRuns.RunKeepsInv | go-libp2p-pubsub/gossipsub.go:79-612 | the router's invariant holds in every state of every run |
| RouterRuns.ControlNeverContradicts | go-libp2p-pubsub/gossipsub.go:318-612 | in every run, no pending control and no queued RPC holds a GRAFT and a PRUNE for one topic |
| RouterRuns.LoopAndRouterAgree | go-libp2p-pubsub/gossipsub.go:213-304 | in every run, mesh topics are the subscribed topics, each with a subscription; mesh and fanout are disjoint; every fanout topic has a publish time |
| RouterRuns.AdvertisedMessagesAreServable | go-libp2p-pubsub/gossipsub.go:150-173 | in every run, a request for any id in pending gossip is served |
| RouterRuns.HeartbeatRestoresMesh | go-libp2p-pubsub/gossipsub.go:394-431 | after a heartbeat a mesh has at most Dhi peers, and at least Dlo or all eligible ones |
| RouterRuns.HeartbeatRestoresFanout | go-libp2p-pubsub/gossipsub.go:442-467 | a fanout that survives lies within the topic's peers, and has fewer than D only with all eligible ones in it |
| RouterRuns.FanoutStaysSmall | go-libp2p-pubsub/gossipsub.go:213-261 | in every run, no fanout has more than D peers |
| RouterRuns.NeverGraftedAndPruned | go-libp2p-pubsub/gossipsub.go:391-431 | no peer is both grafted and pruned in a topic by one heartbeat |
| SharedRpc.RPC.Copy | go-libp2p-pubsub/comm.go:166-174 | a new object with a control message of its own and the same contents |
| SharedRpc.Sender.Load | go-libp2p-pubsub/gossipsub.go:318-340 | control and gossip are piggybacked on a copy; the RPC given, and its control message, stay as they are |
| SharedRpc.Sender.SendRPC | go-libp2p-pubsub/gossipsub.go:318-357 | for any RPC, with a control message of its own or none: the peer's queue gets the loaded RPC if it has room, else its control is pending again; the RPC given stays as it is, its control message changes only in a retry, and no other peer's load changes |
| SharedRpc.Sender.FanOut | go-libp2p-pubsub/gossipsub.go:253-260 | in Publish's fan-out every receiver with room gets the message with its own control and gossip, and the shared RPC ends free of both |
| ChannelSafety.PanicsOnlyOnRecancel | go-libp2p-pubsub/pubsub.go:268-452 | in a safe state the only case that can panic is a second Cancel of a subscription to a live topic |
| ChannelSafety.SafeUnlessMisused | go-libp2p-pubsub/pubsub.go:268-452 | a case that is taken keeps every peer channel open and subscriptions consistent, and panics not, exactly if it is neither a second Cancel for a live topic nor the stream of a connected and blacklisted peer |
| ChannelSafety.MisuseLeadsToPanic | go-libp2p-pubsub/pubsub.go:297-349 | the first panics at once, the second when the peer is found dead |
| ChannelSafety.ChannelsNeverMisused | go-libp2p-pubsub/pubsub.go:268-554 | in every run with BlacklistPeer only and single cancels, nothing is sent on a closed channel, none is closed twice, and a subscription's channel is closed by its Cancel only |
| ChannelSafety.NoStreamOfABlacklistedPeer | go-libp2p-pubsub/pubsub.go:308-313 | in such runs the branch that closes a blacklisted peer's channel is never taken |
| ChannelSafety.CancelTwice | go-libp2p-pubsub/pubsub.go:436-445 | cancelling twice in a row panics exactly if the topic has another subscription |
| ChannelSafety.BlacklistedElsewhereClosesTwice | go-libp2p-pubsub/pubsub.go:308-313 | blacklisting a connected peer elsewhere leads to a second close |
| Announcements.ConvergingUnlessBegunBadly | go-libp2p-pubsub/pubsub.go:328-539 | a case keeps announcements converging exactly if it does not begin a connection with a peer that is wrong about a topic left and has no retry pending |
| Announcements.RespawnSafeIff | go-libp2p-pubsub/pubsub.go:328-338 | respawning a writer keeps announcements converging, for every belief the peer may hold, exactly if each unsubscription in the channel or in transit is of a topic we are in again or is repeated by a pending retry |
| Announcements.RespawnSafeUnseenIff | go-libp2p-pubsub/comm.go:119-129 | and, for every belief and whatever part of what the writer has taken has arrived, exactly if that is so of all it has taken and of the channel |
| Announcements.SessionsConverge | go-libp2p-pubsub/pubsub.go:436-539 | in every run whose sessions begin with an empty view and whose respawns discard nothing else, for every peer and topic, the peer will know the truth after what is in transit and in its queue, or a retry with the truth is pending |
| Announcements.SettledSessionsKnow | go-libp2p-pubsub/pubsub.go:599-629 | in such a run, with nothing queued, in transit or to be retried, a peer knows exactly the topics we are in |
| Announcements.HelloHeard | go-libp2p-pubsub/comm.go:20-30 | a peer that hears only a hello packet adds exactly our topics |
| Announcements.RespawnForgetsUnsubscription | go-libp2p-pubsub/pubsub.go:328-338 | two runs that end settled with a peer believing in a topic that was left: the unsubscription was in the channel, or taken by the old writer |
| Announcements.OldViewStaysWrong | go-libp2p-pubsub/pubsub.go:330-338 | a run that ends settled with a peer still believing what it believed before the session began |
| Settling.DeliveriesEnd | go-libp2p-pubsub/pubsub.go:505-539 | however sending, arrival and retries interleave, only as many steps as a measure of queues, transit and retries says are not retries that find the queue full again |
| Settling.UnsettledGoesOn | go-libp2p-pubsub/pubsub.go:505-539 | such a step is possible exactly as long as something is queued, in transit or to be retried |
| Settling.DeliveriesSettle | go-libp2p-pubsub/pubsub.go:488-539 | from every state of a well-used run within sessions such steps lead, within that measure, to a state in which every connected peer knows exactly the topics we are in |
| EventLoop.PubSub.GetHelloPacket | go-libp2p-pubsub/comm.go:20-30 | names each topic we are in, once, and no other |
| EventLoop.PubSub.NewPeer | go-libp2p-pubsub/pubsub.go:280-295 | a known or blacklisted peer is ignored, any other gets a channel of its own holding the hello packet |
| EventLoop.PubSub.NewPeerStream | go-libp2p-pubsub/pubsub.go:297-315 | an unknown peer is ignored; a connected and blacklisted one has its channel closed; otherwise nothing changes, and channels stay safe exactly in the other two cases |
| EventLoop.PubSub.NewPeerError | go-libp2p-pubsub/pubsub.go:317-319 | the peer is dropped without a close, the others stay as they are |
| EventLoop.PubSub.PeerDead | go-libp2p-pubsub/pubsub.go:321-349 | the open channel is closed, once, and dropped, or replaced by a fresh one with a hello packet if still connected; the others stay as they are |
| EventLoop.PubSub.BlacklistPeer | go-libp2p-pubsub/pubsub.go:406-422 | the peer is blacklisted and, if connected, its open channel closed and dropped; the others stay as they are |
| EventLoop.PubSub.Announce | go-libp2p-pubsub/pubsub.go:488-503 | every open channel is offered the announcement; a retry is started for exactly the full ones |
| EventLoop.PubSub.AddSub | go-libp2p-pubsub/pubsub.go:458-484 | a new subscription is listed, announced if it is the first |
| EventLoop.PubSub.CancelSub | go-libp2p-pubsub/pubsub.go:436-452 | the channel of a listed subscription is closed, once, and the topic announced as left with the last; a second Cancel panics exactly if the topic is still live |
| EventLoop.PubSub.Retried | go-libp2p-pubsub/pubsub.go:505-539 | a stale retry is dropped; a current one is sent or started again |
| EventLoop.PubSub.Shutdown | go-libp2p-pubsub/pubsub.go:269-276 | every peer's channel is closed, once |
| Validation.IdsTellApart | go-libp2p-pubsub/pubsub.go:645-647 | messages with one id have one author and sequence number exactly if their sequence numbers have one length |
| Validation.IdsCanClash | go-libp2p-pubsub/pubsub.go:645-647 | for others they can clash between authors |
| Validation.KindsPartition | go-libp2p-pubsub/validation.go:204-211 | separating inline from async validators loses and doubles none |
| Validation.KindsConcat | go-libp2p-pubsub/validation.go:204-211 | and keeps their order |
| Validation.Validation.AddValidator | go-libp2p-pubsub/validation.go:99-126 | a topic has at most one validator; a second registration is refused and changes nothing |
| Validation.Validation.RemoveValidator | go-libp2p-pubsub/validation.go:129-139 | the topic's validator goes, and an absent one is reported |
| Validation.Validation.GetValidators | go-libp2p-pubsub/validation.go:159-172 | the validator registered for each topic of the message that has one, in the order of the topics, one entry each, and no other |
| Validation.Validation.Push | go-libp2p-pubsub/validation.go:143-156 | forwards at once exactly if no topic of the message has a validator and it has no signature; anything else is queued with its validators, or dropped if there is no room |
| Validation.Validation.Split | go-libp2p-pubsub/validation.go:204-211 | the inline validators and the others, each in order, none lost or doubled |
| Pushing.PubSub.MarkSeen | go-libp2p-pubsub/pubsub.go:565-574 | true exactly the first time |
| Pushing.PubSub.PushMsg | go-libp2p-pubsub/pubsub.go:650-682 | blacklisted, unsigned (in strict mode) and seen messages change nothing; others are queued, or published and marked as seen; from any state these are steps of the pipeline |
| PipelineSafety.RunKeepsOnce | go-libp2p-pubsub/validation.go:189-240 | in every interleaving, publications and validations past markSeen are together at most one for each id, and then the id is seen |
| PipelineSafety.PublishedAtMostOnce | go-libp2p-pubsub/pubsub.go:650-687 | in every interleaving of event loop, workers and validators, a message id is published at most once |
| PipelineSafety.CollectKeeps | go-libp2p-pubsub/validation.go:298-305 | as many good results as there are async validators mean that each of them agreed |
| PipelineSafety.AsyncCounted | go-libp2p-pubsub/validation.go:270-305 | as many results are awaited as there are validators in the list split off |
| PipelineSafety.OnlyValidatedPublished | go-libp2p-pubsub/validation.go:143-321 | whatever is published was pushed from and by peers not blacklisted then, is signed if need be and well if at all, and each topic's validator registered when it was pushed has a place in the request and agreed there: inline, alone or in parallel |
| PipelineProgress.AdmissibleGoesOut | go-libp2p-pubsub/validation.go:143-321 | a message never seen, not blacklisted, signed well if need be, can always be published: there is a run in which all its validators agree, nothing is refused, and it goes out |
| FloodSub.FloodSubRouter.Publish | go-libp2p-pubsub/floodsub.go:50-82 | each connected peer of the message's topics, but for sender and author, gets it once if its queue has room, and no one else |
| Flooding.ForwardsAreEdges | go-libp2p-pubsub/floodsub.go:50-82 | with consistent topic views a node forwards to exactly its subscribed neighbours other than the author and the sender |
| Flooding.FloodingTerminates | go-libp2p-pubsub/floodsub.go:50-82 | every run is finite: a measure of unseen nodes, their degrees and copies in flight bounds its length |
| Flooding.UnsettledGoesOn | go-libp2p-pubsub/pubsub.go:631-687 | a run can go on exactly as long as something is in flight, in validation or about to be published |
| Flooding.FloodingIsComplete | go-libp2p-pubsub/floodsub.go:50-82 | when nothing is left in flight, the nodes that published are exactly the origin and those reachable through subscribed nodes other than the author, each once |
| Flooding.FloodingReachesAllIff | go-libp2p-pubsub/floodsub.go:50-82 | when nothing is left in flight, the nodes that published are exactly those behind subscribed nodes, author or not, if and only if the author is the origin or cannot be reached |
| Flooding.NodesBehindTheAuthorAreMissed | go-libp2p-pubsub/floodsub.go:65-67 | three nodes in a line, the first publishing in the name of the second: every run ends with the message at the first only |
| PeerEvents.AddedIsPending | go-libp2p-pubsub/subscription.go:67-79 | a log that holds what the consumer is wrong about still does after a change of membership |
| PeerEvents.PulledIsPending | go-libp2p-pubsub/subscription.go:82-89 | a pulled event is news to the consumer, and the rest is what it is then wrong about |
| PeerEvents.NewsAlternates | go-libp2p-pubsub/subscription.go:91-94 | events that are all news alternate for each peer, from a Join on |
| Notifications.Subscription.AddToEventLog | go-libp2p-pubsub/subscription.go:67-79 | an opposite entry is cancelled, a missing one added with a signal; a step of the signalling protocol whoever is calling |
| Notifications.Subscription.Poll | go-libp2p-pubsub/subscription.go:95-110 | takes an event exactly if there is one and leaves a signal if there are more; without one the consumer already knows the membership; a step of the signalling protocol and of the subscription's runs |
| Notifications.PubSub.HandleSubscriptions | go-libp2p-pubsub/pubsub.go:599-629 | the sender is in a topic afterwards exactly if its last option about the topic says so, or there is none and it was in it; no one else moves; every live log still holds exactly what its consumer is wrong about, and leaves a signal if it became non-empty |
| Notifications.PubSub.ForgetPeer | go-libp2p-pubsub/pubsub.go:342-347 | the peer leaves every topic, and every live log is kept right |
| Notifications.PubSub.AddSubscription | go-libp2p-pubsub/pubsub.go:474-481 | a new log starts with a Join for every member |
| PeerEventRuns.PeerEventsTrackMembership | go-libp2p-pubsub/subscription.go:59-119 | in every run the log is exactly the consumer's errors about the membership, and it was told nothing twice |
| PeerEventRuns.EntryMeans | go-libp2p-pubsub/subscription.go:59-119 | a pending Join is a present peer not told of, a pending Leave an absent one believed in, no entry means agreement, and conversely |
| PeerEventRuns.DeliveredEventsAlternate | go-libp2p-pubsub/subscription.go:91-119 | in every run delivered events alternate for each peer, starting with a Join |
| PeerEventRuns.DrainingYieldsMembership | go-libp2p-pubsub/subscription.go:82-119 | taking as many events as the log holds leaves the consumer with the current membership |
| Wakeups.NoLostWakeups | go-libp2p-pubsub/subscription.go:67-119 | with any number of callers, whenever one waits and the log is not empty, a signal is there or another caller is about to look |
| Wakeups.CallerRunsEnd | go-libp2p-pubsub/subscription.go:95-119 | the callers' own steps come to an end |
| Wakeups.QuietMeansServed | go-libp2p-pubsub/subscription.go:95-119 | and then every event has been taken or no caller is left |

## Left out

- Codec.Unmarshal: a sub-message is decoded by its description's function on the payload, not through a pointer into the parent; what a refused input leaves half-filled is not modelled.
- Encoder.MarshalTo: messages are trees of values; a nil element in a repeated field, which the code would dereference, is not modelled.
- GossipSub.GossipSubRouter.SendRPC: RPCs are values; that sharing the one RPC object of Publish is harmless is proved in SharedRpc.
- GossipSub.GossipSubRouter.Heartbeat: clock readings and the lifetime are unbounded integers, so an overflow of nanoseconds is not modelled.
- EventLoop.PubSub.PeerDead: what the closed channel held is lost with its stream; that the old writer might still send some of it, should the report be of an earlier stream, is not modelled.
- Announcements.SessionsConverge: both ends are not modelled together; with what view a peer begins is a parameter, empty within sessions, and RPCs it receives are taken in the order of one stream.
- Validation.Validation.Push: the throttles' sizes are left open in Pipeline, where a refusal is possible at any time.
- Flooding.FloodingIsComplete: one message in a static network without dropped messages, rejecting validators or blacklists.
- Wakeups.NoLostWakeups: fairness of the scheduler is not modelled; progress is stated as the end of the callers' steps.
- Reading and writing streams, dialing, tickers, contexts, logging, connection-manager tags and notifications from the host are events that happen or not.
- Cryptography of signatures, the time cache and the LRU blacklist are not part of this model.
- Delivering messages to subscribers, listing peers and topics, and the options of NewPubSub would only add easy members.
- randomsub.go, the demo programs at the top level and generated reflection code are not part of this model.
