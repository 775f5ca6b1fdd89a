# MQTT_Server_Go: a model of the broker, its cluster and its wire codec

MQTT_Server_Go is an MQTT 3.1.1 broker with a small UDP cluster. This project models three parts of it and
proves what they promise, or, where the code falls short, exactly when they keep it.

**The dispatcher.** `Dispatcher.dfy` gives the sessions, the connections and the cluster channel as values and every
event as one step of a state machine: `Step(state, event and run-time choices)`. The run-time choices are the packet
identifiers drawn and the order in which Go ranges over the clients map; they are arbitrary. `DispatchCenter.dfy` is
the program in its own form: client objects whose maps and queues are updated in place inside the loops over the
clients map. Every method is proved to make exactly the step of the state machine; everything else is proved about
runs of the state machine, so it holds of the objects.

**The cluster.** `ClusterSystem.dfy` takes N such nodes and the messages in flight between them, delivered in any
order. A node sends only to the peers it holds alive at that moment; what it does not send is logged as withheld; and a
node's process may end and start again without sessions. `ClusterWire.dfy` is the datagram level, `KeepAlive.dfy` the
timers and the cycle loop, `TwoNodes.dfy` two nodes that watch each other, `Goroutines.dfy` the goroutines of one node with
their channels and lock.

**The codec.** `PacketCodec`, `PublishCodec`, `SubscribeCodec` and `ConnectCodec` follow the parsers' cursors byte by byte,
including the places where they index out of range.

## As written, or as intended

The model follows the code. Where the code departs from what it evidently intends, the statements say so:

- The PUBLISH loop's write buffer is shared by all subscribers (process/clients_MsgDispatch_Center.go:70). Modelled as
  written: a write is the list of packets in the buffer. `KthGetsKPackets`, `BufferedBefore` and `ExactIffOneSubscriber` are
  about the code, `PublishExact` about each client's own packet. Statements that count or list written packets take the
  reading as a parameter: `AsWritten` counts every packet of a write, `AsIntended` only its client's own.
- Identifiers chosen by a client and by the server share `PubStatus`, and queued messages do not reserve theirs. Modelled
  as written; `Clash`, `Leaks` and `Reuses` are the exact conditions under which this shows.
- A CONNECT with CleanSession 1 goes on with the session it finds (process/client_process.go:231-236) instead of discarding
  it (section 3.1.2.4). Modelled as written; `KeepsState` is when it shows.
- DUP and RETAIN of an incoming PUBLISH are copied into every subscriber's packet
  (process/clients_MsgDispatch_Center.go:87, 97, 169, 217; protocol_stack/mqtt_protocol_publish.go:54-55), which sections
  3.3.1.1 [MQTT-3.3.1-3] and 3.3.1.3 [MQTT-3.3.1-9] forbid. Modelled as written; `PassesFlags` is when it shows.
- The QoS of a subscription is stored and never looked at (process/clients_MsgDispatch_Center.go:82-83): a copy keeps the
  QoS of its message (section 3.8.4 [MQTT-3.8.4-6]). Modelled as written; `ExceedsGrant` is when it shows.
- The allocator draws from 0 to 61 (utils/utils.go:22-24, 51-54), and section 2.3.1 [MQTT-2.3.1-1] forbids identifier 0 on
  a PUBLISH of QoS 1 or 2. Modelled as written: `ZeroIffDrawn`, and what it costs the client, `ReadableIffNoZero`.
- CONNACK always says that a session is present (protocol_stack/mqtt_protocol_connect.go:94), against
  section 3.2.2.2. Modelled as written in `ClientView`; the reference broker has no CONNACK.
- A hand-off is written to its client's connection without a test that the client is still there
  (process/clients_MsgDispatch_Center.go:270-282). Modelled as written; a hand-off to an offline session counts as lost.
- The high byte of a string length is shifted out (protocol_stack/mqtt_packet.go:48). Modelled as written: the round trips
  hold if and only if the strings are shorter than 256 bytes.
- `buildClusterLoginInfoMsg` returns nothing, and before that the address is sliced past its end
  (cluster/cluster_server.go:79-109, 257). `ClusterWire` has both as written, and the fragments the loop builds. In
  `ClusterSystem` and the modules about its runs a hand-off is sent as intended, or withheld; as written it is always
  withheld and then the sender's process ends, so the runs of the code are among theirs. In `KeepAlive` the loop as
  written (`Handle`, `startClusterServerCycly`) ends at the first hand-off, and the method `HandOff` is the intended one; the
  ring of timers on which `SentIff` and `MissedBeatIsLast` run has the intended hand-off as well.
- The heart-beat counter is reset inside the loop over the nodes (cluster/cluster_server.go:209). `OneSecond` is the code;
  `MissedBeatIsLast` is what follows when no peer is alive at the due second; with one peer, as in `TwoNodes`, every beat
  due to an alive peer is sent.
- The alive test counts down on every publish, login and hand-off (cluster/cluster_server.go:235, 245, 264): `SentIff`.
- PUBCOMP from a client without a session dereferences nil (process/clients_MsgDispatch_Center.go:195-196): the step has
  the outcome `Crashed` then, and only then (`CrashesIffPubcompWithoutSession`).
- PUBACK, PUBREC and PUBCOMP copy DUP and RETAIN into reserved flags (protocol_stack/mqtt_protocol_publish.go:129-130):
  `AckRoundTrip`.
- A connection that ends before any CONNECT makes its exit handler dereference nil (process/client_process.go:193-195), and
  the process ends: `ClientExit`.
- `StartClusterServerNode` can return before `Cluster_Ch` is made, and its result is ignored
  (cluster/cluster_server.go:296-315, mqtt_server_main.go:48): `FirstLoginBlocks`.

## Files

| file | content |
|---|---|
| MqttTypes.dfy, Dispatcher.dfy | values, and the dispatcher's step function and runs |
| DispatchCenter.dfy | the client and dispatcher objects, each method proved against the step function |
| Invariants.dfy | the invariant of all steps; the life of one packet identifier |
| Effects.dfy | what each event writes and changes in a session, spelled out |
| ExactlyOnce.dfy | QoS 2 on the way in, over whole runs |
| Conservation.dfy, Halfway.dfy | deliveries in flight; one PUBREL per QoS 2 delivery |
| FanOuts.dfy | what each loop over the clients writes; map order |
| OfflineQueue.dfy | what a client missed is replayed on reconnect |
| IdealBroker.dfy | a reference broker without identifiers and buffers; exactly when the dispatcher refines it |
| ClusterSystem.dfy, ClusterBounds.dfy | N nodes: session uniqueness; the invariant at every node |
| ClusterTraffic.dfy | N nodes: no forwarding loops, draining |
| OncePerSession.dfy | N nodes: each session gets each message at most once |
| HandOff.dfy | N nodes: the session hand-off |
| ClusterRuns.dfy, MovingClient.dfy | building runs of the cluster; four runs in which a client moves and a condition of the theorems fails |
| ClusterWire.dfy | datagrams and reassembly |
| KeepAlive.dfy, TwoNodes.dfy | timers, heart beats and the cycle loop; two nodes that watch each other |
| Goroutines.dfy | channels and the lock: deadlock freedom; nothing begun is lost |
| PacketCodec.dfy, PublishCodec.dfy, SubscribeCodec.dfy, ConnectCodec.dfy | the wire format |
| ClientView.dfy, PacketIds.dfy | from the dispatcher's packets to the bytes a client reads; which packets the standard allows, over runs |

## Model

| member | source | states |
|---|---|---|
| ExactlyOnce.PubrelReleasesLatest | process/clients_MsgDispatch_Center.go:147-191 | Exactly once over whole runs: a PUBREL releases the message of the latest QoS 2 PUBLISH with its identifier, to every subscriber and the cluster once each, if no PUBREL or removal of the session came after it; otherwise it changes nothing; whatever else interleaves, if no replay clashed |
| ExactlyOnce.PubrelReleasesLatestAlone | process/clients_MsgDispatch_Center.go:147-191 | The same without a condition on identifiers, on a node to which nothing is handed over for the client, and a client that publishes only while logged in |
| ExactlyOnce.AloneNeverClashes | process/client_process.go:254-263 | There no replay ever takes the identifier of a stored message: identifiers drawn for queued messages avoid stored ones, and while a queue fills its client stores nothing |
| ExactlyOnce.NoSecondRelease | process/clients_MsgDispatch_Center.go:147-191 | Between a PUBREL and a later one for the same identifier that takes effect, the client published that very message |
| ExactlyOnce.InboundStep | process/clients_MsgDispatch_Center.go:67-77 | One step treats a stored message as section 4.3.3 asks if and only if no replayed message takes its identifier; if one does, the stored message is lost |
| ExactlyOnce.InboundIsLatest | process/clients_MsgDispatch_Center.go:67-77 | In every run without such a clash the stored message is the one the history of events determines |
| ExactlyOnce.ReplayLosesMessage | process/clients_MsgDispatch_Center.go:266-288 | The condition is needed once hand-offs arrive (as written none leaves a node): a run of four events in which a hand-off's queued message takes the identifier of a stored one and the PUBREL is dropped |
| Invariants.InvStep | process/clients_MsgDispatch_Center.go:32-292 | Every step, whatever the event, draws and map order, keeps: map key is client id, online sessions have an empty queue, cache entries are QoS 2 under their own identifier, every identifier waiting for PUBREL has a cache entry |
| Invariants.PubrelFindsMessage | process/clients_MsgDispatch_Center.go:160-188 | In every run an accepted PUBREL finds its stored message: the "not find client msg" branch is unreachable |
| Invariants.Lifecycle | process/clients_MsgDispatch_Center.go:118-204 | How one step moves one packet identifier of one session, for every event: the whole table (PUBACK to free, PUBREC to PUBCOMP to free, PUBREL to free, and what allocations and replays do) |
| Invariants.ReplayStatusExactly | process/client_process.go:254-263 | A replay puts exactly the identifiers of its QoS 2 messages into PUBREC and leaves all others |
| Effects.EventWrites | process/clients_MsgDispatch_Center.go:131-146 | What each event without a fan-out writes to a client, packet by packet: CONNACK and one write per queued message on its login, PUBREL with its very identifier for an accepted PUBREC, one write per message of a hand-off, and nothing on any other |
| Effects.EventKeeps | process/clients_MsgDispatch_Center.go:192-204 | What else such an event changes: the connection state with a login or its end, the clean flag and the queue with a login, the cache by exactly the identifier of an accepted PUBCOMP; no other field and no other session |
| Effects.EventSubs | process/clients_MsgDispatch_Center.go:53-66 | Topic by topic: an UNSUBSCRIBE takes exactly the listed topics from its own session and leaves the others their QoS, a hand-off overrides with its own, a SUBSCRIBE applies its list, and nothing else touches subscriptions |
| Effects.EventSessions | process/clients_MsgDispatch_Center.go:34-52 | Which sessions there are after any event, and that a new one has nothing but its CONNACK |
| Effects.FanOutStarts | process/clients_MsgDispatch_Center.go:147-162 | When a fan-out starts, with which message and in which loop, and what it changes first: a QoS 2 PUBLISH is stored under its own identifier, an accepted PUBREL frees its identifier and is answered with PUBCOMP for it |
| Conservation.BalanceStep | process/clients_MsgDispatch_Center.go:118-146 | One step changes (publishes to c that need an acknowledgement, minus identifiers in flight) by the acknowledgement it accepts or by more, and by exactly that if and only if it does not leak; in both readings of a write, every packet or the client's own |
| Conservation.InFlightConserved | process/clients_MsgDispatch_Center.go:118-204 | In every run: QoS 1 and 2 publishes written to c, minus PUBACKs and PUBCOMPs accepted from c, are the identifiers in flight if and only if no step has leaked since the session was created; as written, a QoS 1 PUBLISH that finds other packets in the buffer leaks too |
| Conservation.ClashDropsPuback | process/clients_MsgDispatch_Center.go:74 | The leak, from any state: after the client's own QoS 2 PUBLISH takes the identifier of a QoS 1 delivery, its PUBACK is dropped and the delivery is no longer tracked |
| Conservation.ClashRun | process/clients_MsgDispatch_Center.go:67-130 | The leak as a run from the start: one delivery is written under identifier 5, the client publishes at QoS 2 under 5, and its PUBACK changes nothing: one publish written, none in flight, none accepted |
| Conservation.AtMost62InFlight | process/client_process.go:31-40 | In every run a session has at most 62 deliveries in flight |
| ClusterBounds.AtMost62Everywhere | process/client_process.go:31-40 | In every run of N nodes every node keeps the dispatcher's invariant and every session has at most 62 deliveries in flight, whatever is handed over |
| Halfway.PubrelIffPubrec | process/clients_MsgDispatch_Center.go:131-146 | A PUBREL is written to a client exactly when a PUBREC of that client is accepted, and carries its identifier |
| Halfway.PubrelsAnswerPubrecs | process/clients_MsgDispatch_Center.go:131-146 | In every run the identifiers of the PUBRELs written to c are, in order, those of the PUBRECs accepted from c since its session was created |
| Halfway.SurplusStep | process/clients_MsgDispatch_Center.go:192-204 | One step adds to the PUBRELs of finished deliveries when a PUBCOMP is accepted, or more, and exactly that if and only if no identifier awaiting PUBCOMP is reused |
| Halfway.OnePubrelPerDelivery | process/clients_MsgDispatch_Center.go:131-204 | In every run, the PUBRELs written to c are one per completed QoS 2 delivery and one per delivery awaiting its PUBCOMP, if and only if no such identifier was reused since the session was created |
| FanOuts.FanOutExact | process/clients_MsgDispatch_Center.go:162-179 | On the PUBREL and cluster loops each online subscriber gets exactly one publish under a free identifier, which is then tracked as its QoS asks and at QoS 2 cached; each offline one queues it (QoS not 0); nothing else of any session changes |
| FanOuts.PublishExact | process/clients_MsgDispatch_Center.go:78-116 | The PUBLISH loop up to its shared buffer: one own packet per online subscriber at QoS 0 and 1 under a free identifier, tracked at QoS 1; one queued copy per offline one at QoS 1; nothing else of any session changes, the cache included |
| FanOuts.KthGetsKPackets | process/clients_MsgDispatch_Center.go:70-90 | As written, the subscriber at place k of the map order is written, in one write, one packet for each subscriber written before it and then its own |
| FanOuts.KthGetsThoseBefore | process/clients_MsgDispatch_Center.go:70-90 | The packets before its own are the copies of the subscribers written before it, in the order of the map |
| FanOuts.BufferedBefore | process/clients_MsgDispatch_Center.go:70-90 | A client finds other packets in the shared buffer exactly if a subscriber that is written to comes before it in the map order |
| FanOuts.ExactIffOneSubscriber | process/clients_MsgDispatch_Center.go:70-90 | Every online subscriber is written exactly its own packet if and only if there are not two of them |
| FanOuts.OrderIrrelevant | process/clients_MsgDispatch_Center.go:78-116 | With the same identifiers drawn, any two map orders leave the same sessions: equal on the PUBREL and cluster loops, equal up to the packets before a client's own on the PUBLISH loop |
| OfflineQueue.ReconnectReplaysMissed | process/client_process.go:244-264 | The login after an absence writes CONNACK and then, one write each and in order, exactly the QoS 1 and 2 messages on the client's topics completed meanwhile; that is all that was due if and only if no non-empty hand-off arrived for it meanwhile |
| OfflineQueue.LateHandOffIsLost | process/clients_MsgDispatch_Center.go:270-282 | A run in which a hand-off reaches an offline session: it goes to the closed connection and the next login replays nothing |
| OfflineQueue.AwayStep | process/clients_MsgDispatch_Center.go:102-113 | One step appends to an absent client's queue exactly what it completes on the client's topics |
| OfflineQueue.ClearIsLatest | process/client_process.go:193-208 | In every run a session's clean flag, by which the exit handler removes or keeps it, is that of the client's latest CONNECT |
| IdealBroker.StepRefines | process/clients_MsgDispatch_Center.go:32-292 | One step of the dispatcher is one step of a reference broker (which gives copies with DUP and RETAIN 0 and at most the granted QoS, discards state on a clean CONNECT and queues for the absent) if and only if none of these happens to a session: a packet of another subscriber in its write (as written only), a copy with DUP or RETAIN 1, a copy above the granted QoS, a cluster publish with QoS above 2, a hand-off while offline, a clean CONNECT over existing state, a replay that takes the identifier of a stored message |
| IdealBroker.RunRefines | process/clients_MsgDispatch_Center.go:32-292 | Every run without such a departure delivers, queues, stores and sends to the other nodes (publishes, logins, and hand-offs with the queue they carry away) exactly what the reference broker does on the same events, in both readings of a write |
| IdealBroker.ViewStep | process/clients_MsgDispatch_Center.go:32-292 | What a client can see of its session agrees with the reference after a step if and only if the step does not depart there |
| DispatchCenter.MqttClientInfo.GeneralUniquePacketId | process/client_process.go:31-40 | Returns the first identifier of the draw stream that is not in PubStatus |
| DispatchCenter.AllocatorReturnsIff | utils/utils.go:51-54 | The allocator can return if and only if fewer than 62 identifiers of its range are taken |
| DispatchCenter.MqttClientInfo.MQTTGetSubInfo | protocol_stack/mqtt_protocol_subscribe.go:73-77 | The in-place loop applies the list as the last-wins update |
| DispatchCenter.MqttClientInfo.MQTTRemoveUnSubTopic | protocol_stack/mqtt_protocol_unsubscribe.go:60-67 | The in-place loop removes exactly the listed topics; the others stay with their QoS |
| DispatchCenter.MqttClientInfo.ReplayAll | process/client_process.go:254-263 | The replay loop writes each message in a write of its own and tracks the QoS 2 ones |
| DispatchCenter.MqttClientInfo.LogIn | process/client_process.go:244-264 | CONNECT on an object is the login of the state machine: CONNACK, replay, empty queue |
| DispatchCenter.MqttClientInfo.Visit | process/clients_MsgDispatch_Center.go:82-113 | The loop over SubInfo is a membership test, and does to a matching client what the state machine's Receive does |
| DispatchCenter.ClientsMsgDispatch.Distribute | process/clients_MsgDispatch_Center.go:78-116 | The loop over the clients map, in any order, is the state machine's fan-out for some valid run-time choice |
| DispatchCenter.ProgressStep | process/clients_MsgDispatch_Center.go:78-116 | Visiting one more client extends the fan-out of the clients visited so far by that client's share |
| DispatchCenter.ClientsMsgDispatch.ClientAdd | process/clients_MsgDispatch_Center.go:34-45 | CONNECT with the MSG_CLIENT_ADD that follows is one step: the session is reused or new, logged in, filed and announced |
| DispatchCenter.ClientsMsgDispatch.ClientDel | process/clients_MsgDispatch_Center.go:46-52 | MSG_CLIENT_DEL is the removal step |
| DispatchCenter.ClientsMsgDispatch.ClientExit | process/client_process.go:193-208 | The exit handler: without a session object the process dies; a clean session is removed by its id; another is marked offline, and the dispatcher sees it if and only if that object is the registered one |
| DispatchCenter.ClientsMsgDispatch.ClientSub | process/clients_MsgDispatch_Center.go:53-59 | MSG_CLIENT_SUB is the step of the state machine |
| DispatchCenter.ClientsMsgDispatch.ClientUnsub | process/clients_MsgDispatch_Center.go:60-66 | MSG_CLIENT_UNSUB is the step of the state machine, which `EventSubs` spells out |
| DispatchCenter.ClientsMsgDispatch.ClientPublish | process/clients_MsgDispatch_Center.go:67-117 | MSG_CLIENT_PUBLISH is the step of the state machine for some valid run-time choice |
| DispatchCenter.ClientsMsgDispatch.ProcessPublish | process/client_process.go:81-120 | The client's goroutine: nothing before login; the dispatcher's step, the acknowledgement of its QoS, and exactly one copy to the cluster at QoS 0 and 1 and none at QoS 2 |
| DispatchCenter.ClientsMsgDispatch.ClientPuback | process/clients_MsgDispatch_Center.go:118-130 | MSG_CLIENT_PUBACK is the step of the state machine |
| DispatchCenter.ClientsMsgDispatch.ClientPubrec | process/clients_MsgDispatch_Center.go:131-146 | MSG_CLIENT_PUBREC is the step of the state machine, which `EventWrites` and `Lifecycle` spell out |
| DispatchCenter.ClientsMsgDispatch.ClientPubrel | process/clients_MsgDispatch_Center.go:147-191 | MSG_CLIENT_PUBREL is the step of the state machine for some valid run-time choice |
| DispatchCenter.ClientsMsgDispatch.ClientPubcomp | process/clients_MsgDispatch_Center.go:192-204 | MSG_CLIENT_PUBCOMP is the step of the state machine, the crash included |
| DispatchCenter.ClientsMsgDispatch.ClusterPublish | process/clients_MsgDispatch_Center.go:205-239 | A publish of another node is the step of the state machine for some valid run-time choice |
| DispatchCenter.ClientsMsgDispatch.FindClient | process/clients_MsgDispatch_Center.go:247-258 | The search by stored client id finds exactly the client under that key |
| DispatchCenter.ClientsMsgDispatch.ClusterLoginNotify | process/clients_MsgDispatch_Center.go:240-265 | A login elsewhere evicts the session and hands over its subscriptions and queue |
| DispatchCenter.ClientsMsgDispatch.ClusterLoginInfoNotify | process/clients_MsgDispatch_Center.go:266-288 | A hand-off is replayed to and merged into the session of its client |
| DispatchCenter.ClientsMsgDispatch.ProcessMsg | process/clients_MsgDispatch_Center.go:32-292 | Every message is exactly one step of the state machine |
| ClusterSystem.AtMostOneHolder | process/clients_MsgDispatch_Center.go:240-265 | Session uniqueness: in every run of N nodes, once the latest login of c was sent to every other node and no login of c is in flight, only the node of that login can have a session of c, whatever concurrent logins, restarts and separations went before |
| ClusterSystem.UniqueAlways | cluster/cluster_server.go:242-250 | In every run, of two nodes that both have a session of c the one whose login is the later has its notification to the other in flight, or did not hold the other alive at that login |
| ClusterSystem.NothingWithheld | cluster/cluster_server.go:242-250 | Nothing is withheld while every node holds all its peers alive |
| ClusterSystem.SessionSurvives | process/clients_MsgDispatch_Center.go:240-265 | A session stays at its node while its client logs in nowhere else, is not deleted and the node does not restart, if no login of the client was on its way there |
| MovingClient.ConcurrentLoginsLoseBoth | process/clients_MsgDispatch_Center.go:240-258 | No login on its way is needed for a session to survive: a run in which two concurrent logins evict each other and no node holds the client |
| MovingClient.WithheldLoginsLeaveTwo | cluster/cluster_server.go:242-250 | Sending to all is needed for uniqueness: a run after which two nodes that did not hold each other alive have the client and nothing is in flight |
| ClusterTraffic.ForwardedOncePerPeer | cluster/cluster_server.go:228-241 | In every run, between any two nodes, the publishes the first has handed to the cluster are exactly those delivered to the second, those still in flight and those withheld, as multisets |
| ClusterTraffic.DeliveriesDrain | process/clients_MsgDispatch_Center.go:205-239 | Without new client events, at most the backlog of deliveries can follow: each one shrinks it, so nothing circulates |
| ClusterTraffic.DrainedMeansDelivered | cluster/cluster_server.go:228-241 | Once drained, everything handed to the cluster has been delivered to another node exactly once, if and only if none of it was withheld from that node |
| ClusterTraffic.DeliveredOncePerSession | process/clients_MsgDispatch_Center.go:205-239 | One delivered publish reaches each subscriber of the node at most once and is not forwarded again |
| OncePerSession.AtMostOncePerSession | process/clients_MsgDispatch_Center.go:78-239 | At most once over whole runs of N nodes: if a client logs in at one node only, its session is written (its own packets) or has queued each message at most as often as the message was completed at that node or forwarded by another one |
| OncePerSession.CopiesStep | process/clients_MsgDispatch_Center.go:78-239 | One step, apart from what a hand-off brings, gives a session at most one copy, and only of the message it completes; logins, replays and acknowledgements give none |
| MovingClient.TwiceAfterMoving | process/clients_MsgDispatch_Center.go:205-288 | One node only is needed: a run of three nodes in which a message is published once, waits for c at one node, moves with c to another, reaches that one last by itself, and c is written it twice |
| HandOff.QueueStep | process/clients_MsgDispatch_Center.go:240-288 | One step of a node, as sequences: queued and arriving messages stay queued, are written, are dropped or leave, in order |
| HandOff.FlushedInOrder | process/clients_MsgDispatch_Center.go:273-282 | The messages that leave a queue or a hand-off for an open connection are written one each and in order |
| HandOff.HandOffConserves | process/clients_MsgDispatch_Center.go:240-288 | In every run of N nodes every message queued for c is exactly once in a queue, in a hand-off in flight, or written to an open connection of c, or was dropped |
| HandOff.NothingLost | process/clients_MsgDispatch_Center.go:266-288 | No queued message is lost if and only if no session of c is deleted and no node of c restarts with a queue, and of the hand-offs with a message none is withheld and each finds c present and online. This is about queued messages: a publish that reaches the old node after the eviction and the new one before the hand-off finds no subscription of c and is queued nowhere |
| HandOff.HandOffMoves | process/clients_MsgDispatch_Center.go:240-288 | A delivered login ends the old session; its content, unless withheld, stays in flight until delivered; then the new subscriptions are its own overridden by the old ones, and the old queue is written in order: to an open connection if c is online, otherwise to a closed one and so lost |
| MovingClient.LostAtAPresentSession | process/clients_MsgDispatch_Center.go:270-282 | A run of three nodes in which a message is lost though c has its session at the new node when the hand-off arrives: its connection there has ended |
| ClusterWire.buildClusterLoginInfoMsg | cluster/cluster_server.go:79-109 | As written the loop builds the fragments and returns none of them |
| ClusterWire.MessageBytes | cluster/cluster_server.go:54-77 | Every datagram built is its type and its length, two bytes each with the higher one first, and the body |
| ClusterWire.FragmentsShape | cluster/cluster_server.go:79-109 | An info of n bytes is ceil(n/1024) fragments, only the last flagged, whose chunks in order are the info |
| ClusterWire.FragmentHeaders | cluster/cluster_server.go:79-109 | Every fragment is a datagram of type 4 with its own length, flag and at most 1024 bytes |
| ClusterWire.ClusterReceiver.processClusterNodeMsg | cluster/cluster_server.go:112-167 | One datagram changes the reassembly buffer and the two channels as `Receives` spells out, or dies on a hand-off without a body |
| ClusterWire.Receives | cluster/cluster_server.go:119-166 | By the number of its type, a well-formed datagram is handed on as a heart beat (1), a publish (2), a login of that very client id from that address (3) or the next piece of a hand-off (4), and any other is ignored |
| ClusterWire.IgnoresMalformed | cluster/cluster_server.go:112-118 | A datagram shorter than its header, or not of the length that its header gives, changes nothing |
| ClusterWire.StreamReassembles | cluster/cluster_server.go:147-165 | For every stream whose hand-off datagrams are groups one after the other, whatever is mixed in, exactly the original infos come out in order and the buffer ends empty |
| ClusterWire.InterleavedGroupsMix | cluster/cluster_server.go:111-165 | The condition is needed: two interleaved hand-offs are both lost |
| ClusterWire.PublishArrivesIffShort | cluster/cluster_server.go:169-187 | A cluster publish arrives if and only if its JSON has at most 4092 bytes |
| ClusterWire.LoginArrivesIffShort | cluster/cluster_server.go:140-146 | A login is announced to the dispatcher, with its client id and sender, if and only if the id has at most 4092 bytes |
| ClusterWire.HeartArrives | cluster/cluster_server.go:54-59 | A heart beat is the bytes 0, 1, 0, 0, and arrives as a heart beat |
| ClusterWire.SplitAddress | cluster/cluster_server.go:251-258 | As written, the address is cut at its first colon and the port then sliced past the end of the part before it, whatever the address |
| KeepAlive.TimerIsQuiet | cluster/cluster_node.go:38-49 | After any mix of calls the timer is 60 minus the calls since the last refresh, never below 0 nor above 60 |
| KeepAlive.ClusterNodeInfo.UpdateKeepAliveTimeout | cluster/cluster_node.go:38-40 | A heart beat refreshes the timer |
| KeepAlive.ClusterNodeInfo.KeepAliveTimeEscape1Sec | cluster/cluster_node.go:42-49 | Reports alive if and only if fewer than 60 calls came since the refresh |
| KeepAlive.ClusterServerCycle.OneSecond | cluster/cluster_server.go:197-214 | As written, the heart beat goes only to the first peer that is alive, and every timer counts down |
| KeepAlive.ClusterServerCycle.Tenth | cluster/cluster_server.go:197-221 | Only the tenth tick is a second: then the timers count down, and a heart beat goes out in the fiftieth to the first alive peer |
| KeepAlive.ClusterServerCycle.SendToAlive | cluster/cluster_server.go:228-250 | A publish or login goes once to each alive peer, and counts every timer down |
| KeepAlive.ClusterServerCycle.Handle | cluster/cluster_server.go:189-282 | As written, every event the cycle loop receives is one step of the ring of timers and counters (tick, heart beat, publish or login), except a hand-off, on which the loop dies before it looks at a timer |
| KeepAlive.ClusterServerCycle.startClusterServerCycly | cluster/cluster_server.go:189-282 | The loop over any events runs to the first hand-off, and leaves the timers and counters that the ring's steps up to there give |
| KeepAlive.ClusterServerCycle.HandOff | cluster/cluster_server.go:251-275 | A hand-off as intended: sent to its peer, and only to it, if that is alive, whose timer it counts down |
| KeepAlive.BeatReachesAllIffOneAlive | cluster/cluster_server.go:201-213 | Every alive peer gets its heart beat if and only if no two peers are alive |
| KeepAlive.SentIff | cluster/cluster_server.go:228-250 | In every run of the loop a publish or login goes to a peer exactly if fewer than 60 times, this one included, ten tenths of a second were completed or a publish, a login or a hand-off to it came since its last heart beat, all counted in the list of events; so does a hand-off to it, and one to another peer is not sent to it |
| KeepAlive.CountdownsSince | cluster/cluster_server.go:197-275 | That count in closed form: since the last heart beat, the tenths over ten in whole seconds, and each publish, login and hand-off to the peer |
| KeepAlive.TenthsLeft | cluster/cluster_server.go:197-221 | In every run the loop's tenths are the remainder of all tenths passed by ten |
| KeepAlive.MissedBeatIsLast | cluster/cluster_server.go:201-213 | If no peer is alive in the second a heart beat is due, none is ever sent again, whatever the loop receives; otherwise one is sent and the counter starts anew |
| TwoNodes.NeverMarkedDead | cluster/cluster_server.go:197-227 | Two nodes that each run the timer and counter for the other, and beat only a peer they hold alive, never take each other for dead if start offset and greatest delay are safe |
| TwoNodes.NeverDeadIffSafe | cluster/cluster_server.go:197-227 | The exact bound: for a given start offset and greatest delay no run marks a node dead if and only if they are safe |
| TwoNodes.SteadyIsRun | cluster/cluster_server.go:197-227 | Every safe offset and delay has runs of any length: both nodes beat every 50 seconds and stay alive |
| TwoNodes.SafeInWholeSeconds | cluster/cluster_node.go:38-49 | In whole seconds: offset and delay at most 10 together, and the delay at most 9 |
| TwoNodes.NineIsEnoughTenIsNot | cluster/cluster_node.go:38-49 | Offset plus delay of up to 9 seconds is always safe; below 10 is not enough: 0.05 and 9.9 are unsafe |
| Goroutines.InvAlways | process/clients_MsgDispatch_Center.go:313-317 | In every run the lock's reader count is the number of replaying clients, a writer excludes them, and a queued reader always has a writer that will wake it |
| Goroutines.WriterExcludesReaders | process/client_process.go:231-265 | While the dispatcher works on the sessions no client replays from one |
| Goroutines.NeverStuck | process/clients_MsgDispatch_Center.go:302-317 | Deadlock freedom for any number of clients: whenever a goroutine is inside a lock call or channel operation, some goroutine can take a step of work already begun |
| Goroutines.OperationsComplete | cluster/cluster_server.go:189-282 | Work steps alone end after at most WorkLeft of them, whichever are chosen, and then every operation has completed |
| Goroutines.ClientLedger | process/client_process.go:231-265 | In every run, client by client, what was begun was completed or is being done: logins, messages for the dispatcher, and publishes for the other nodes, none twice and none left out; and a client leaves once and for good |
| Goroutines.ServerLedger | process/clients_MsgDispatch_Center.go:302-317 | The same for the dispatcher, the receiver and the cycle loop: every message taken is worked off, and all that is made for the cycle loop reaches it |
| Goroutines.FirstLoginBlocks | cluster/cluster_server.go:296-317 | With a nil Cluster_Ch the first login blocks the dispatcher for ever under the write lock |
| Goroutines.NeverStuckIffCluster | mqtt_server_main.go:48 | The node never gets stuck if and only if its cluster server has started |
| Goroutines.KindsEmit | process/clients_MsgDispatch_Center.go:32-292 | One dispatcher step sends on Cluster_Ch at most once and only as its message kind allows; a login always, no other but a PUBREL and a login elsewhere ever |
| PacketCodec.mqttPacket_encode | protocol_stack/mqtt_packet.go:27-44 | Writes the remaining length in at most 4 bytes, and indexes out of range exactly from 128^4 on |
| PacketCodec.mqttPacket_decode | protocol_stack/mqtt_packet.go:5-25 | The loop is the recursive reader, with its two failures: too short, and four continuation bytes |
| PacketCodec.VarIntRoundTrip | protocol_stack/mqtt_packet.go:5-44 | Decoding an encoded length followed by anything gives the length and its byte count |
| PacketCodec.VarIntMinimal | protocol_stack/mqtt_packet.go:5-44 | No encoding of a value is shorter than the encoder's, and one of that length is the encoder's |
| PacketCodec.VarIntSize | protocol_stack/mqtt_packet.go:27-44 | The number of bytes, by ranges, as section 2.2.3 tabulates them |
| PacketCodec.VarIntBytes | protocol_stack/mqtt_packet.go:27-44 | The very bytes by ranges: seven bits each, the lowest first, the top bit on all but the last |
| PacketCodec.HighByteLost | protocol_stack/mqtt_packet.go:46-50 | A string length is read from its low byte alone |
| PacketCodec.mqttPacket_readString | protocol_stack/mqtt_packet.go:46-55 | The byte-by-byte loop is the slice of that length, or indexes out of range |
| PacketCodec.StringRoundTrip | protocol_stack/mqtt_packet.go:46-55 | A string followed by anything is read back if and only if it is shorter than 256 bytes |
| PublishCodec.MqttPacket_ParseFixHeader | protocol_stack/mqtt_packet.go:68-79 | The type and remaining length of a buffer, with its refusal of type 15 and its range errors |
| PublishCodec.FixHeaderRead | protocol_stack/mqtt_packet.go:68-79 | On any packet of the standard, whatever follows, the fixed header is read as its type and the number of bytes after it |
| PublishCodec.HeaderFields | protocol_stack/mqtt_protocol_publish.go:51-55 | The first byte of a PUBLISH is 48 + 8 DUP + 2 QoS + RETAIN, and is taken apart again by the parser |
| PublishCodec.MQTTSeserialize_publish | protocol_stack/mqtt_protocol_publish.go:46-82 | Appends the packet of section 3.3 to the buffer's content, returns the bytes appended, and the remaining length is the bytes after it |
| PublishCodec.MQTTDeserialize_publish | protocol_stack/mqtt_protocol_publish.go:19-44 | The cursor over the read buffer, with its rejections and range errors |
| PublishCodec.PublishRoundTrip | protocol_stack/mqtt_protocol_publish.go:19-82 | In any read buffer it lies at the start of, a serialised PUBLISH is parsed back if and only if its topic is shorter than 256 bytes; bytes that follow in the same read end up in the payload, those after it are ignored |
| PublishCodec.MQTTSeserialize_ack | protocol_stack/mqtt_protocol_publish.go:118-142 | Appends the four bytes of the acknowledgement |
| PublishCodec.MQTTDeserialize_ack | protocol_stack/mqtt_protocol_publish.go:84-100 | The cursor of the acknowledgement parser |
| PublishCodec.AckRoundTrip | protocol_stack/mqtt_protocol_publish.go:84-142 | In any read buffer an acknowledgement is read back with its identifier; its reserved flags are right if and only if DUP and RETAIN were 0 |
| PublishCodec.AcksOnTheWire | protocol_stack/mqtt_protocol_publish.go:118-142 | PUBACK, PUBREC, PUBREL and PUBCOMP begin with the bytes 64, 80, 98 and 112, then 2 and the identifier, if DUP and RETAIN are 0 |
| ClientView.PublishRead | protocol_stack/mqtt_protocol_publish.go:46-82 | A reader that follows the standard gets a serialised PUBLISH back, with any topic below 65536 bytes, if and only if the standard allows it: no identifier 0 above QoS 0, no DUP at QoS 0, no QoS 3, a topic name |
| ClientView.ClientReadsLawful | protocol_stack/mqtt_protocol_publish.go:46-82 | From the bytes of all writes to a connection, however many packets each write holds, a client that follows the standard reads exactly the packets written, in order, if each of them is allowed, and otherwise has to close the connection |
| ClientView.SharedBufferIsVisible | process/clients_MsgDispatch_Center.go:70-90 | So a client is delivered every packet that was in the PUBLISH loop's shared buffer, and one of another subscriber's that is not allowed costs it the connection |
| PacketIds.AllStep | process/clients_MsgDispatch_Center.go:78-288 | For any property of packets: all that a session was written or has queued has it after a step if and only if it had it before and no packet without it reaches the session, as its own copy, in the shared buffer (as written) or in a hand-off |
| PacketIds.ZeroIffDrawn | utils/utils.go:51-54 | In every run a QoS 1 or 2 PUBLISH under identifier 0 has been written to c or is queued for it if and only if, since its session was created, 0 was drawn for one (as written, or for one before it in the buffer) or came with a hand-off |
| PacketIds.ZeroIsADraw | process/client_process.go:31-40 | Whenever 0 is free, a step that gives c a copy at QoS 1 or 2 has a valid choice that differs only in drawing 0 for it |
| PacketIds.ProperAlways | process/clients_MsgDispatch_Center.go:32-292 | If every message of a client, of another node and of a hand-off is allowed and fits its packet, so is, but for its identifier, every message cached, queued or written in the run |
| PacketIds.ReadableIffNoZero | process/clients_MsgDispatch_Center.go:32-292 | In such a run all that was written to an online session, as one stream, is read as exactly its packets if and only if 0 was not drawn for it; otherwise the client finds a packet for which it has to close the connection |
| SubscribeCodec.MQTTDeserialize_subscribe | protocol_stack/mqtt_protocol_subscribe.go:15-48 | The cursor loop terminates and returns the parsed list and its length |
| SubscribeCodec.SubscribeRoundTrip | protocol_stack/mqtt_protocol_subscribe.go:15-48 | In any read buffer the parser returns exactly the list that was sent if and only if every topic is shorter than 256 bytes |
| SubscribeCodec.MQTTDeserialize_unsubscribe | protocol_stack/mqtt_protocol_unsubscribe.go:8-39 | The cursor loop terminates and returns the parsed list and its length |
| SubscribeCodec.UnsubscribeRoundTrip | protocol_stack/mqtt_protocol_unsubscribe.go:8-39 | In any read buffer the parser returns exactly the list that was sent if and only if every topic is shorter than 256 bytes |
| SubscribeCodec.MQTTSeserialize_suback | protocol_stack/mqtt_protocol_subscribe.go:50-71 | SUBACK carries the identifier and one return code per filter, the code at each place being the QoS asked for at that place |
| SubscribeCodec.LastEntryWins | protocol_stack/mqtt_protocol_subscribe.go:73-77 | Applying a list: a topic's QoS is that of its last entry, topics without an entry keep theirs |
| SubscribeCodec.LastWinsKeys | protocol_stack/mqtt_protocol_subscribe.go:73-77 | The topics after applying a list are the old ones and the listed ones |
| SubscribeCodec.UnsubscribeUndoes | protocol_stack/mqtt_protocol_unsubscribe.go:60-67 | Unsubscribing the topics just subscribed leaves exactly the other original topics, with their QoS |
| ConnectCodec.mqttPacket_readProtocol | protocol_stack/mqtt_packet.go:57-66 | Skips the protocol name and returns the version byte, or indexes out of range |
| ConnectCodec.MQTTDeserialize_connect | protocol_stack/mqtt_protocol_connect.go:38-79 | The flag-driven cursor, with its rejections and range errors |
| ConnectCodec.ConnectRoundTrip | protocol_stack/mqtt_protocol_connect.go:38-79 | On every well-formed packet, in any read buffer, the cursor ends at the packet's end with every field if and only if username and password are both present or both absent; a username alone reads past the end |

## Left out

- TCP and UDP sockets, and framing: one read is taken as one packet, so each parser is given one buffer. A packet before CONNECT, for which the client's goroutine has no session object, is not part of the model; a connection that ends before CONNECT is (`ClientExit`).
- JSON: cluster bodies are left encoded in `ClusterWire` and taken as values in `ClusterSystem`.
- Configuration, address resolution, Redis, logging, and the HTTP manager.
- Randomness: the allocator is given its stream of draws, and `AllocatorReturnsIff` says when some stream lets it return. Methods and steps assume that it does; the endless draw with 62 identifiers taken has no step.
- The client heart timeout: its counter is unsigned and never below 0, so the branch is never taken.
- Field accesses outside the lock and two live connections with one client id: CONNECT together with its MSG_CLIENT_ADD is one step except in `Goroutines`, and a session object belongs to one connection.
- The acknowledgements that a client's own goroutine writes (PUBACK, PUBREC, SUBACK, UNSUBACK, PINGRESP): `out` holds what the dispatcher and the login write; `ProcessPublish` returns the PUBACK or PUBREC.
- CONNACK's comparison of username and password, and the ping packets: the CONNACK of `ClientView` is that of an accepted login.
- Whether a topic is UTF-8: strings are bytes, and the reader of `ClientView` checks a topic name only for being non-empty and without wildcards and the null character.
- UDP loss and duplication: the network of `ClusterSystem` delivers each message at most once and loses none that was sent. Which peers a node holds alive is arbitrary there; `KeepAlive` and `TwoNodes` prove when it is.
- The search of a peer by address: the cycle loop's events name the peer by its place in the list.
- The unsuback writer: four bytes as for an acknowledgement.
- TwoNodes.NeverMarkedDead: two nodes, no heart beat lost and no publish or login between them; with three the heart beat as written reaches only the first alive peer (`BeatReachesAllIffOneAlive`). A heart beat is counted before the countdown of the second in which it arrives.
- Goroutines.NeverStuck: assumes that reads and writes on connections return and that every allocation finds a free identifier; panics end the process and have no step.
- Features the code does not have: wildcards, retained messages, wills, retransmission on reconnect. The reference broker of `IdealBroker` does not have them either.
