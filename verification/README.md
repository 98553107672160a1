# mqtt5 client: model and proofs

A Dafny model of a C++ MQTT 5.0 client library: its QoS engine, its wire codec with incremental
framing, and its topic filters, with proofs that the three do what MQTT 5.0 (OASIS, 2019) asks, or
exactly when they do not. `dafny verify dfyconfig.toml` checks everything.

## How it is put together

**The engine.** `Engine` gives the session logic as functions on a state: one `start()`, one packet, or
one finished write of a PUBACK is one atomic step. A user callback may start further operations before
it returns; a receiver therefore carries the finite list of operations it starts, and the receivers of
those carry theirs, so every theorem covers every finite re-entrant behaviour. A published option that
modifies the message late is part of the message. The state also records history that the program
itself does not keep: packets written, calls made, publishes started, and where each finished.
`ClientObject` is the client as an object, with the source's fields updated in place; each method is
proved to do what the function of `Engine` does. `Starts` says what starts can do at all; on it rest

- `Window`: order and the send window (sections 4.6, 4.9);
- `Completions` and `Identifiers`: which acknowledgement completes what, at most once (2.2.1);
- `Progress`: what drains and what is stuck;
- `Receiving`: the QoS 2 receive table against arbitrary packets (4.3.3), the receive quota;
- `Waiters` and `Delivery`: who is called with which incoming message, over whole runs;
- `Replies`: what the client answers, with its codes as numbers;
- `Receivers`: nobody is forgotten and nobody is told twice;
- `Duplex`: two clients, both publishing, over two in-order channels: ordered exactly-once delivery;
- `Liveness`: their exchanges end, and then everything written has arrived;
- `Backlog`: which of the started publishes those are, and which stay in the queue for ever.

**The codec.** `Bytes` has the cursor and the writer that the code shares; `VarInt`, `Primitives`,
`Properties`, `Records`, `Packets` have, for each format, a parser and a printer as functions and the
loops of the source as methods proved against them. `RecordRoundTrips` and `PacketRoundTrips` prove
inversion; `Framing` reads packets from a socket that delivers bytes in pieces of its choosing;
`Streams` joins them. `PropertyFormat` and `WireFormat` are the formats as numbers, for every packet type and
any contents, and `Refusals` what is read from bytes the library would not write. `Handshake` and `Requests`
cover the packets built from options. `EndToEnd` carries a session over bytes, and `ByteDuplex` two clients that
read each other's.

**Topic filters.** `TopicFilter` has the splitting parser, the printer and the three-case matcher, and
section 4.7 as a declarative replacement of wildcards.

## What the code does that its documentation or the standard does not

- QoS 2 completions never restore the send quota (`include/mqtt5/client.hpp:633-705`; section 4.9 asks for
  it): `Progress.Qos2ExhaustsTheWindow` and its concrete witness.
  `Backlog.ArrivesExactly` says which publishes that leaves behind.
- QoS 2 receipts never restore the receive quota, so a server that completes every exchange is disconnected
  (`Receiving.ConformingServerIsDisconnected`); `Receiving.ReceiveWindow` says exactly which sessions are.
- A stray PUBACK gives quota back: `Window.PubackConserves` says exactly when that breaks the window, and
  `Window.StrayPubackOpensWindow` is a session where it does.
- `send_connect` sets the clean-start flag when the options do not ask for it: `Handshake.SendConnect`.
- The will's user properties are not copied into the CONNECT: `Handshake.Built`.
- User properties of a PUBLISH are written twice, an expiry interval is read back as 16 bits, the packet
  identifier is written by its value and read by the QoS, an acknowledgement with nothing but unknown
  properties loses them, authentication data without a method and a will without its flag are not written,
  user name and password are written by their presence and read by their flags. The packets that this
  leaves alone are exactly those of `PacketRoundTrips.Faithful`, by `PacketRoundTrips.BodyRoundTripExact`, and
  for a PUBLISH by `PacketRoundTrips.PublishBodyExact`.
- A PUBLISH that carries a subscription identifier is refused: `PropertyFormat.SubscriptionIdentifierIsRefused`.
- `"#/"` passes the filter parser: `TopicFilter.AcceptedButInvalid`, with the exact condition in
  `TopicFilter.ValidExactly`.

## Model

| member | source | states |
|---|---|---|
| `Duplex.OrderedExactlyOnce` | include/mqtt5/client.hpp:519-705 | two clients, in-order channels, any interleaving and any callbacks, in-flight identifiers distinct: at each sender the finished QoS 2 list is a prefix of what the peer delivered, that of what was written, that of what was started; likewise QoS 1; QoS 0 is delivered in the order written |
| `Duplex.EveryPacketFits` | include/mqtt5/client.hpp:536-705 | over the same runs every PUBACK, PUBREC and PUBCOMP names a publish in flight that waits for just that kind, every PUBREL the oldest open entry, every QoS 2 PUBLISH an identifier the receiver does not hold |
| `Duplex.QuietMeansDone` | include/mqtt5/client.hpp:519-705 | whenever both channels are empty, everything written by either client has been delivered once and in order and completed at its sender |
| `Liveness.EverythingArrives` | include/mqtt5/client.hpp:519-705 | after any such run, delivering what is on its way, in any order, ends after at most a number of packets fixed by the state, and then every publish written by either client has been delivered once and in order and completed |
| `Backlog.ArrivesExactly` | include/mqtt5/client.hpp:519-705 | after any such run, with empty channels: everything written has arrived, once and in order, and a started publish was written if and only if fewer publishes of a QoS above 1 than the window holds were started before it; all others stay queued |
| `Backlog.QueueIsExact` | include/mqtt5/detail/publish_sender.hpp:96-131 | with no QoS 1 publish in flight, the written ones are exactly the started ones before which fewer of a QoS above 1 than the window holds were started |
| `Backlog.StepLedger` | include/mqtt5/client.hpp:150-160 | one expected input of any kind keeps the account of units never given back: one for each publish of a QoS above 1 written, each of them in flight or gone |
| `ByteDuplex.OrderedExactlyOnceOverBytes` | include/mqtt5/connection.hpp:113-160 | two clients that read packets off the bytes the other wrote: in every interleaving both are in the states they reach by exchanging packets, the bytes on their way are those of the packets on their way, and both directions are in order |
| `ByteDuplex.NextCarries` | include/mqtt5/connection.hpp:113-160 | one step over bytes is the step over packets |
| `Liveness.HandlingCostsLess` | include/mqtt5/client.hpp:519-705 | handling a packet, with everything the callbacks start, costs less than the packet carried, in a measure that counts all packets written, queued, and still to be started by any receiver held |
| `Liveness.DeliveriesEnd` | include/mqtt5/client.hpp:519-705 | from any state, sound or not, no more deliveries are possible than its energy |
| `Liveness.DrainExists` | include/mqtt5/client.hpp:519-705 | deliveries that empty both channels exist |
| `Duplex.RecentRunsAreDistinct` | include/mqtt5/client.hpp:63-74 | the premise of these theorems holds in every run where nothing stays outstanding for 65535 further allocations |
| `Duplex.TakePublish2` | include/mqtt5/client.hpp:610-626 | the receiver's table takes a QoS 2 PUBLISH it does not know, and the sender's and receiver's lists stay linked |
| `Duplex.TakePubrel` | include/mqtt5/client.hpp:667-688 | a PUBREL finds its entry at the head of the table and moves it to the delivered list |
| `Duplex.TakePubrec` | include/mqtt5/client.hpp:633-665 | a PUBREC moves the oldest waiting publish, found by identifier among all in flight, on to waiting for PUBCOMP |
| `Duplex.TakePubcomp` | include/mqtt5/client.hpp:690-705 | a PUBCOMP finds the oldest QoS 2 publish in flight, in the state waiting for PUBCOMP |
| `Duplex.TakePuback` | include/mqtt5/client.hpp:536-555 | a PUBACK finds the oldest QoS 1 publish in flight, waiting for a PUBACK |
| `Duplex.AtSender` | include/mqtt5/client.hpp:519-705 | any packet at the sender, reactions included, keeps the two ends linked |
| `Duplex.AtReceiver` | include/mqtt5/client.hpp:588-688 | any packet at the receiver, reactions included, keeps the two ends linked |
| `EndToEnd.BytesCarryPackets` | include/mqtt5/connection.hpp:113-160 | in any session whose requests print unchanged, reading r packets from the bytes written gives the first r packets written and leaves the bytes of the rest |
| `EndToEnd.OwnIsCarried` | include/mqtt5/protocol/publish.hpp:281-290 | every acknowledgement and DISCONNECT that the client makes itself can be printed and is read back unchanged |
| `Window.FirstInFirstOut` | include/mqtt5/detail/publish_sender.hpp:104-130 | for every session that starts with its CONNACK, stray packets and re-entrant starts included: QoS>0 publishes written, then those queued, are those started, in order; each started one is queued, in flight or completed; a non-empty queue means no quota |
| `Window.WindowConservation` | include/mqtt5/client.hpp:150-160 | without stray PUBACKs, quota + in flight + messages gone by PUBREC or PUBCOMP is the server's receive maximum at every moment |
| `Window.PubackConserves` | include/mqtt5/client.hpp:536-555 | a PUBACK conserves the window if and only if it names a message in flight or the window is fully open |
| `Window.StrayPubackOpensWindow` | include/mqtt5/client.hpp:536-555 | a concrete session where it does not: window 1, one message in flight, a PUBACK for any other identifier; the next start puts a second one in flight |
| `Window.ConnackWindow` | include/mqtt5/client.hpp:519-534 | the CONNACK leaves the window right if and only if nothing was in flight, and the queue behind it if and only if it was empty or the maximum is 0 |
| `Window.QueueIsStuck` | include/mqtt5/client.hpp:150-160 | with a non-empty queue, something is in flight if and only if fewer messages have left without their quota than the window holds |
| `Window.DequeueDoesNotWrap` | include/mqtt5/detail/publish_sender.hpp:105-107 | the unguarded decrement of a dequeued starter finds the unit just given back |
| `Window.StepKeepsOrder` | include/mqtt5/client.hpp:519-705 | one input of any kind keeps the order and the account of the receivers |
| `Window.StepConserves` | include/mqtt5/client.hpp:519-705 | one input that is not a stray PUBACK keeps the window conserved |
| `Window.StartKeeps` | include/mqtt5/detail/publish_sender.hpp:96-131 | a start, with everything its callbacks start before returning, keeps window, order and account |
| `Completions.AcknowledgementCompletes` | include/mqtt5/client.hpp:536-705 | while identifiers in flight are distinct, an acknowledgement completes the publish it names and nothing else: with its reason code, or with done and a close on a state mismatch; a successful PUBREC completes nothing |
| `Completions.FirstCompletes` | include/mqtt5/client.hpp:536-705 | the same for the first publish with the identifier, when several share it |
| `Completions.StrayCompletesNothing` | include/mqtt5/client.hpp:536-705 | an acknowledgement for an identifier not in flight completes nothing |
| `Completions.SubackCompletes` | include/mqtt5/client.hpp:557-573 | a SUBACK completes exactly the first subscribe with its identifier, with its reason codes |
| `Completions.UnsubackCompletes` | include/mqtt5/client.hpp:575-586 | an UNSUBACK completes exactly the first unsubscribe with its identifier, with its reason codes |
| `Completions.PublishCompletesNothing` | include/mqtt5/client.hpp:588-631 | an incoming PUBLISH completes nothing and closes the connection exactly when it exceeds the receive quota |
| `Completions.PubrelCompletesNothing` | include/mqtt5/client.hpp:667-688 | a PUBREL completes nothing |
| `Completions.EveryWaitWasAsked` | include/mqtt5/detail/publish_sender.hpp:105-121 | over every run, whatever waits for an acknowledgement, publish, subscribe or unsubscribe, has had its packet written with the identifier it waits with |
| `Completions.NeverCompletedTwice` | include/mqtt5/client.hpp:536-705 | in every session a started publish is in exactly one place, once: queue, flight, or completed |
| `Identifiers.EveryOperationOnce` | include/mqtt5/client.hpp:63-74 | in every session each identifier given out belongs to one operation, publish, subscribe or unsubscribe, that is outstanding or completed, never both and never twice; two outstanding ones share an identifier exactly when their serials differ by a multiple of 65535 |
| `Identifiers.NextIdentifier` | include/mqtt5/client.hpp:63-74 | the generator's wrap-around step leads from the k-th to the (k+1)-st of 1 + k mod 65535 |
| `Identifiers.SameIdentifier` | include/mqtt5/client.hpp:63-74 | two identifiers coincide if and only if their positions differ by a multiple of 65535 |
| `Identifiers.StepKeepsNumbers` | include/mqtt5/client.hpp:519-705 | one input of any kind keeps the account of identifiers |
| `Progress.AcknowledgementsDrain` | include/mqtt5/client.hpp:536-555 | PUBACKs for messages in flight, in any order and with any re-entrant starts: each leaves one publish less to do, the next is always possible, and exactly when all are done nothing is queued or in flight and every started publish is completed |
| `Progress.StuckForever` | include/mqtt5/client.hpp:690-705 | once as many messages as the window holds have left by PUBREC or PUBCOMP, no QoS>0 publish is ever written or completed again and the queue only grows |
| `Progress.Qos2ExhaustsTheWindow` | include/mqtt5/client.hpp:690-705 | so it is after as many completed QoS 2 publishes as the server's receive maximum |
| `Progress.SecondPublishIsNeverWritten` | include/mqtt5/client.hpp:690-705 | a concrete session: window 1, two QoS 2 publishes, the first completed by a conforming server; whatever inputs without stray packets follow, the second stays at the head of the queue and nothing further is written |
| `Progress.AckWork` | include/mqtt5/client.hpp:536-555 | a PUBACK for a message in flight takes exactly one off the work left, whatever its receiver starts |
| `Progress.StartWork` | include/mqtt5/detail/publish_sender.hpp:96-131 | a start adds exactly the publishes it will start, now or later |
| `Delivery.ApplicationIsHanded` | include/mqtt5/client.hpp:588-688 | over every session the calls made to the receivers of incoming messages are exactly these, in order: for a PUBLISH of QoS 0 or 1, itself, and for a PUBREL, the first PUBLISH with its identifier since the PUBREL before, one call of everybody who waits under a matching filter at that moment; the messages of QoS 2 among them are the released ones, the others those delivered at once |
| `Delivery.StepHands` | include/mqtt5/client.hpp:588-688 | from any state, one input of any kind calls exactly the receivers that wait under a filter matching the message it hands over, in the order in which they wait, with that message; every other input calls none |
| `Delivery.CalledAre` | include/mqtt5/client.hpp:116-140 | the receivers taken out are those of the matching entries, entry after entry |
| `Replies.RepliesAreExact` | include/mqtt5/client.hpp:588-688 | over every run from any state, the acknowledgements and DISCONNECTs written are exactly the replies due: PUBACK or PUBREC 0 by QoS, DISCONNECT 151 for each PUBLISH beyond the quota, PUBCOMP 0 or 146, PUBREL 0 or 146, and nothing else |
| `Replies.StepWrites` | include/mqtt5/client.hpp:519-705 | one input is answered first; what follows are requests of callbacks or of the queue |
| `Replies.PubrecThreshold` | include/mqtt5/client.hpp:633-665 | for a message not waiting for a PUBACK: a PUBREC with a code up to 16 leaves it in flight waiting for PUBCOMP, tells nobody, and is answered by PUBREL 0; one with a code from 17 up completes it with that code, and is not answered |
| `Replies.OthersAreIgnored` | include/mqtt5/client.hpp:416-438 | packets without a handler change nothing, and a written PUBACK nothing but the receive quota |
| `Receivers.EveryReceiverOnce` | include/mqtt5/client.hpp:116-160 | over every session and for every token: as often as it was given to a start, those of reactions included, so often it has been told something or still waits, in one place |
| `Receivers.StepAccount` | include/mqtt5/client.hpp:519-705 | one input of any kind keeps that account |
| `Receivers.StartDoes` | include/mqtt5/detail/publish_sender.hpp:96-131 | what a start writes, queues, records and keeps is the message of the application with the next identifier, and its receiver; QoS 0 is written unchanged and reported first |
| `Receiving.ExactlyOnceReceipt` | include/mqtt5/client.hpp:588-688 | for every input sequence: no two table entries share an identifier; the table holds exactly the first PUBLISH since the last PUBREL per identifier; released messages are those, one per PUBREL that found one; PUBRECs and PUBCOMPs written are exactly the answers due, "not found" exactly when nothing was open |
| `Receiving.NoPublishReleasedTwice` | include/mqtt5/client.hpp:667-688 | however many duplicates arrive no PUBLISH is released twice, and none before a later PUBREL for it |
| `Receiving.OpenAtExactly` | include/mqtt5/client.hpp:610-620 | the entry found by going through the inputs is the declarative one: first PUBLISH since the last PUBREL |
| `Receiving.OpenAt` | include/mqtt5/client.hpp:610-620 | the open PUBLISH for an identifier, or that every earlier one was released |
| `Receiving.QuotaIsNotRestored` | include/mqtt5/client.hpp:590-609 | in every run the quota left and the PUBLISHes counted come to no more than the quota at the start, the PUBACKs written and the DISCONNECTs: a QoS 2 exchange gives nothing back, completed or not; without a written PUBACK both are exact |
| `Receiving.ReceiveWindow` | include/mqtt5/client.hpp:588-609 | for every run: the quota is the maximum less what is open, where only a written PUBACK closes anything; and no DISCONNECT is written if and only if no stretch of the inputs holds more QoS>0 PUBLISHes than written PUBACKs and the receive maximum together |
| `Receiving.StaysExactly` | include/mqtt5/client.hpp:590-598 | going through the inputs with a counter that stops at 0 never meets a full window if and only if every stretch and, from the start, every prefix is within it |
| `Receiving.ConformingServerIsDisconnected` | include/mqtt5/client.hpp:588-688 | a concrete session for every receive maximum: as many completed PUBLISH, PUBREC, PUBREL, PUBCOMP exchanges one after the other, nothing open; the next PUBLISH is answered by DISCONNECT |
| `Receiving.StepExact` | include/mqtt5/client.hpp:588-688 | one input of any kind keeps table, releases and answers exact |
| `Waiters.DeliverCallsMatching` | include/mqtt5/client.hpp:116-140 | one delivery calls each receiver waiting under a matching filter once and in order, none registered meanwhile; receivers are conserved; other entries stay in place and order |
| `Waiters.OneEntryPerFilter` | include/mqtt5/detail/filter_subscribe_sender.hpp:65-78 | no reachable state has two entries for one filter |
| `Waiters.TakenOut` | include/mqtt5/client.hpp:125-133 | erasing the matching entries splits the receivers without loss |
| `Waiters.MatchingFrom` | include/mqtt5/client.hpp:125-133 | the receivers taken out are those of entries whose filter matches the topic |
| `Waiters.OthersFrom` | include/mqtt5/client.hpp:125-133 | the entries kept are those whose filter does not match |
| `Waiters.AddWaiterHolds` | include/mqtt5/detail/filter_subscribe_sender.hpp:65-78 | registering adds exactly the new receiver |
| `Starts.StartExtends` | include/mqtt5/detail/publish_sender.hpp:96-131 | a start, its callbacks included, only appends: what is new in flight is what was written, in order, and serials rise |
| `Starts.InOrder` | include/mqtt5/detail/publish_sender.hpp:96-131 | what a reaction lists is started in that order |
| `Starts.DeliverExtends` | include/mqtt5/client.hpp:116-140 | so does a delivery |
| `Starts.StepReceivesNothing` | include/mqtt5/client.hpp:536-705 | inputs other than PUBLISH, PUBREL and a written PUBACK leave the receiving side alone |
| `ClientObject.Client.constructor` | include/mqtt5/client.hpp:109-156 | a new client has empty tables, has written and called nothing, and has first identifier 1 and all quotas 65535 |
| `ClientObject.Client.NextPacketIdentifier` | include/mqtt5/client.hpp:63-74 | returns the current identifier and steps, skipping 0 |
| `ClientObject.Client.LaunchPublish` | include/mqtt5/detail/publish_sender.hpp:105-121 | takes quota with 16-bit wrap-around, writes, stores in flight in the state for its QoS |
| `ClientObject.Client.StartPublishing` | include/mqtt5/detail/publish_sender.hpp:96-131 | QoS 0 is sent and reported at once; others get an identifier and are launched or queued by the quota |
| `ClientObject.Client.StartSubscribing` | include/mqtt5/detail/subscribe_sender.hpp:117-119 | allocates, writes, stores |
| `ClientObject.Client.StartUnsubscribing` | include/mqtt5/detail/unsubscribe_sender.hpp:61-68 | allocates, writes, stores |
| `ClientObject.Client.StartWaitingOn` | include/mqtt5/detail/filter_subscribe_sender.hpp:65-78 | appends to the entry with the same filter, or adds one |
| `ClientObject.Client.TakeMatching` | include/mqtt5/client.hpp:124-133 | the erasing loop takes out the matching entries and keeps the others in order |
| `ClientObject.Client.DeliverToPublishWaiters` | include/mqtt5/client.hpp:116-140 | the two loops make the calls of the specification, reactions included |
| `ClientObject.Client.MaybeSendQueuedPublish` | include/mqtt5/client.hpp:150-160 | gives one unit back below the maximum and launches the head of the queue |
| `ClientObject.Client.FindPublished` | include/mqtt5/client.hpp:538-541 | `find_if` gives the first entry with the identifier |
| `ClientObject.Client.Connack` | include/mqtt5/client.hpp:519-534 | the part of the handler that sets the quotas |
| `ClientObject.Client.Puback` | include/mqtt5/client.hpp:536-555 | the handler does what the specification says |
| `ClientObject.Client.Pubrec` | include/mqtt5/client.hpp:633-665 | the handler does what the specification says |
| `ClientObject.Client.Pubrel` | include/mqtt5/client.hpp:667-688 | the handler does what the specification says |
| `ClientObject.Client.Pubcomp` | include/mqtt5/client.hpp:690-705 | the handler does what the specification says |
| `ClientObject.Client.Suback` | include/mqtt5/client.hpp:557-573 | the handler does what the specification says |
| `ClientObject.Client.Unsuback` | include/mqtt5/client.hpp:575-586 | the handler does what the specification says |
| `ClientObject.Client.TakeQuota` | include/mqtt5/client.hpp:590-598 | one unit per QoS>0 PUBLISH; at 0 a DISCONNECT instead |
| `ClientObject.Client.Publish` | include/mqtt5/client.hpp:588-631 | the handler does what the specification says |
| `ClientObject.Client.PubackSent` | include/mqtt5/client.hpp:410-414 | gives receive quota back up to the maximum |
| `ClientObject.Client.HandleAll` | include/mqtt5/client.hpp:416-438 | the object run over any inputs ends in the state of the specification's run |
| `Handshake.SendConnect` | include/mqtt5/client.hpp:746-793 | every flag bit and field of the CONNECT follows from the options; clean start is set exactly when the options do not ask for it |
| `Handshake.ConnectIsReadBack` | include/mqtt5/client.hpp:746-793 | for options of legal lengths the flags agree with the fields, the packet prints, and is read back field for field |
| `Handshake.FlagsAreNumber` | include/mqtt5/client.hpp:746-793 | the flags say what the options are if and only if they are this number: 128 user name, 64 password, 32 retained will, 16 or 8 its QoS, 4 will, 2 unless clean start is asked for |
| `Handshake.BuiltFormat` | include/mqtt5/client.hpp:746-793 | the CONNECT for any options of legal lengths, byte for byte: header, flags, keep-alive, receive maximum, client identifier, will with its properties, user name, password; and a reader of those bytes gets the packet |
| `Handshake.BuiltOnce` | include/mqtt5/client.hpp:746-793 | the options determine the packet |
| `Handshake.OrSets` | include/mqtt5/client.hpp:781-790 | `|=` sets its bit and leaves the others |
| `Requests.PublishFlags.SetDuplicate` | include/mqtt5/protocol/publish.hpp:146-148 | sets the duplicate bit only |
| `Requests.PublishFlags.SetQualityOfService` | include/mqtt5/protocol/publish.hpp:154-159 | sets the QoS, keeps retain, clears duplicate for QoS 0 |
| `Requests.PublishFlags.SetRetain` | include/mqtt5/protocol/publish.hpp:165-167 | sets the retain bit only |
| `Requests.BuildTopics` | include/mqtt5/detail/subscribe_sender.hpp:105-115 | each topic is the printed filter, each option byte decodes to what was asked |
| `Requests.SubscribeIsUnderstood` | include/mqtt5/detail/subscribe_sender.hpp:101-120 | the server reads the SUBSCRIBE back and its parse of each topic is the filter given |
| `Streams.Transfer` | include/mqtt5/connection.hpp:113-160 | packets serialised, cut by the socket at will and read back are their canonical forms, and the same packets if and only if each is faithful |
| `Streams.StreamRoundTrip` | include/mqtt5/protocol/control_packet.hpp:151-217 | the same for the uncut stream with any bytes after it, which are left |
| `Streams.ReadOfPrint` | include/mqtt5/protocol/control_packet.hpp:151-217 | one printed packet is framed by exactly its own bytes |
| `Streams.ReadAll` | include/mqtt5/connection.hpp:113-122 | successive reads over the persistent buffer equal reading the uncut stream; no byte is lost or repeated |
| `Framing.Connection.ReadPacket` | include/mqtt5/protocol/control_packet.hpp:151-212 | the packet read depends only on the stream, not on its cuts; bytes are conserved; each read was asked for while the packet was not yet complete |
| `Framing.Connection.ReadHeader` | include/mqtt5/protocol/header.hpp:56-79 | the same for the fixed header |
| `Framing.Connection.FetchHeader` | include/mqtt5/protocol/header.hpp:58-68 | reads until the header is settled, and not once it is |
| `Framing.Connection.FetchBody` | include/mqtt5/transport/data_fetcher.hpp:133-140 | reads until the body is there, and not once it is |
| `Framing.Connection.ReadSome` | include/mqtt5/transport/data_fetcher.hpp:91-106 | a non-empty read moves a prefix of the unread bytes to the buffer |
| `Framing.Connection.Consume` | include/mqtt5/transport/data_fetcher.hpp:34-36 | drops from the front of the buffer |
| `Framing.ClosedExactly` | include/mqtt5/connection.hpp:113-122 | a read ends with the end of the stream exactly when the stream could still have gone on to another outcome, and with an exception exactly when no continuation makes it a packet |
| `Framing.HeaderOfPrefix` | include/mqtt5/protocol/header.hpp:58-68 | a settled header decodes the same whatever follows |
| `PacketRoundTrips.BodyRoundTripExact` | include/mqtt5/protocol/control_packet.hpp:151-217 | for every packet of the 14 types whose strings and properties fit their formats: parsing the printed body gives the packet back if and only if it is faithful, a condition on its own fields: identifier and QoS agree, flags and optional fields agree, and nothing in it is of the kinds the printer drops, doubles or truncates |
| `PacketRoundTrips.BodyRoundTrip` | include/mqtt5/protocol/control_packet.hpp:151-217 | what it gives back whenever identifier and flags agree with the fields |
| `PacketRoundTrips.FaithfulIsUnchanged` | include/mqtt5/protocol/publish.hpp:284-289 | a packet is faithful if and only if its identifier and flags agree with its fields and its canonical form is the packet itself |
| `PacketRoundTrips.ConnectBody` | include/mqtt5/protocol/connect.hpp:267-313 | CONNECT, with flag-dependent fields |
| `PacketRoundTrips.PublishBody` | include/mqtt5/protocol/publish.hpp:173-205 | PUBLISH, with the identifier and the rest-of-body payload |
| `PacketRoundTrips.AckBody` | include/mqtt5/protocol/publish.hpp:262-290 | PUBACK-style bodies, with the optional tail |
| `PacketRoundTrips.SubscribeBody` | include/mqtt5/protocol/subscribe.hpp:84-113 | SUBSCRIBE, with its topic loop |
| `PacketRoundTrips.UnsubscribeBody` | include/mqtt5/protocol/unsubscribe.hpp:57-82 | UNSUBSCRIBE, with its topic loop |
| `PacketRoundTrips.CodesBody` | include/mqtt5/protocol/subscribe.hpp:168-192 | SUBACK and UNSUBACK, with rest-of-body codes |
| `PacketRoundTrips.DisconnectBody` | include/mqtt5/protocol/disconnect.hpp:89-121 | DISCONNECT, with the omitted body |
| `PacketRoundTrips.ConnackBody` | include/mqtt5/protocol/connect.hpp:434-446 | CONNACK |
| `PacketRoundTrips.PublishBodyExact` | include/mqtt5/protocol/publish.hpp:173-205 | a PUBLISH reads back if and only if it has an identifier exactly when its QoS is above 0, no user properties, and an expiry below 65536 |
| `PacketRoundTrips.MismatchedIdentifier` | include/mqtt5/protocol/publish.hpp:175-199 | a PUBLISH with an identifier and QoS 0, or QoS above 0 and none, never reads back |
| `Packets.DeserializeConnect` | include/mqtt5/protocol/connect.hpp:267-293 | the cursor code computes the CONNECT parse, errors included |
| `Packets.DeserializeWill` | include/mqtt5/protocol/connect.hpp:282-286 | the cursor code computes the parse of the will |
| `Packets.DeserializeConnack` | include/mqtt5/protocol/connect.hpp:434-439 | the cursor code computes the CONNACK parse |
| `Packets.DeserializePublish` | include/mqtt5/protocol/publish.hpp:173-192 | the cursor code computes the PUBLISH parse |
| `Packets.DeserializeAck` | include/mqtt5/protocol/publish.hpp:262-279 | the cursor code computes the parse of a PUBACK-style body |
| `Packets.DeserializeSubscribe` | include/mqtt5/protocol/subscribe.hpp:84-95 | the topic loop computes the SUBSCRIBE parse |
| `Packets.DeserializeUnsubscribe` | include/mqtt5/protocol/unsubscribe.hpp:57-66 | the topic loop computes the UNSUBSCRIBE parse |
| `Packets.DeserializeCodes` | include/mqtt5/protocol/subscribe.hpp:168-176 | the cursor code computes the SUBACK parse |
| `Packets.DeserializeDisconnect` | include/mqtt5/protocol/disconnect.hpp:89-101 | the cursor code computes the DISCONNECT parse |
| `Packets.DeserializeBody` | include/mqtt5/protocol/control_packet.hpp:156-204 | dispatch on the type, with the error for unknown types |
| `Packets.SerializeConnect` | include/mqtt5/protocol/connect.hpp:295-313 | writes exactly the printed CONNECT body |
| `Packets.SerializeWill` | include/mqtt5/protocol/connect.hpp:303-307 | writes exactly the printed will |
| `Packets.SerializeConnack` | include/mqtt5/protocol/connect.hpp:441-446 | writes exactly the printed CONNACK body |
| `Packets.SerializePublishBody` | include/mqtt5/protocol/publish.hpp:194-205 | writes exactly the printed PUBLISH body |
| `Packets.SerializeAck` | include/mqtt5/protocol/publish.hpp:281-290 | writes exactly the printed PUBACK-style body |
| `Packets.SerializeSubscribeBody` | include/mqtt5/protocol/subscribe.hpp:104-113 | writes exactly the printed SUBSCRIBE body |
| `Packets.SerializeUnsubscribeBody` | include/mqtt5/protocol/unsubscribe.hpp:75-82 | writes exactly the printed UNSUBSCRIBE body |
| `Packets.SerializeCodes` | include/mqtt5/protocol/subscribe.hpp:185-192 | writes exactly the printed SUBACK body |
| `Packets.SerializeDisconnect` | include/mqtt5/protocol/disconnect.hpp:110-121 | writes exactly the printed DISCONNECT body |
| `Packets.Serialize` | include/mqtt5/protocol/header.hpp:22-32 | a counting pass gives the remaining length, then header and body are written |
| `WireFormat.PacketFormat` | include/mqtt5/protocol/header.hpp:22-32 | every packet type, with any contents that fit: the bytes written are its first byte, the length, and its body field by field, all given as numbers; and those bytes are read as that packet if and only if it is faithful |
| `WireFormat.ConnackFormat` | include/mqtt5/protocol/connect.hpp:422-446 | 0x20, flags, code, and property 33 for a receive maximum below 65535; read back as written |
| `WireFormat.UnsubscribeFormat` | include/mqtt5/protocol/unsubscribe.hpp:45-82 | 0xA2, identifier, topics; read back as written |
| `WireFormat.SubackFormat` | include/mqtt5/protocol/subscribe.hpp:168-192 | 0x90 or 0xB0, identifier, codes; read back as written |
| `WireFormat.AcknowledgementFormat` | include/mqtt5/protocol/publish.hpp:281-318 | the bytes of the four acknowledgements of a publish, without properties, for every identifier and reason code |
| `WireFormat.PublishFormat` | include/mqtt5/protocol/publish.hpp:194-212 | the bytes of a PUBLISH without properties, for every topic that fits its prefix and any body up to the maximal remaining length |
| `WireFormat.SubscribeFormat` | include/mqtt5/protocol/subscribe.hpp:104-120 | the bytes of a SUBSCRIBE for any list of topics that fit their prefixes, up to the maximal remaining length; read back as written |
| `Refusals.TypeIsRead` | include/mqtt5/protocol/control_packet.hpp:156-204 | a packet that is read has the type of its first byte |
| `Refusals.FlagsAreIgnored` | include/mqtt5/protocol/control_packet.hpp:156-204 | the other half of the first byte only matters for a PUBLISH |
| `Refusals.UnknownTypes` | include/mqtt5/protocol/control_packet.hpp:156-204 | types 0 and 15 are refused, pings are read whatever their body |
| `Refusals.ShortAcknowledgements` | include/mqtt5/protocol/publish.hpp:262-279 | two bytes mean success, a third is the code, fewer are refused |
| `Refusals.ShortDisconnects` | include/mqtt5/protocol/disconnect.hpp:89-101 | no body, a reason alone, a reason and one byte more |
| `Refusals.Truncated` | include/mqtt5/protocol/binary.hpp:25-36 | which exception too few bytes give, in a string and in binary data |
| `Refusals.ForeignProtocol` | include/mqtt5/protocol/connect.hpp:267-275 | a CONNECT for another protocol is a protocol error |
| `WireFormat.ConnectFormat` | tests/connect.cpp:15-45 | the bytes of a CONNECT, for any keep-alive, session expiry, zero included, and client identifier that fits its prefix; the test has one instance |
| `WireFormat.PingAndDisconnectFormat` | include/mqtt5/protocol/disconnect.hpp:110-128 | the bytes of the pings, and of a DISCONNECT with any reason |
| `PropertyFormat.ConnectListFormat` | include/mqtt5/protocol/connect.hpp:110-145 | every CONNECT property list: length, then each field that is not its default behind its identifier, as numbers and with its width, then user and unknown properties; and what reading those bytes gives |
| `PropertyFormat.ConnackListFormat` | include/mqtt5/protocol/connect.hpp:341-419 | the same for CONNACK |
| `PropertyFormat.WillListFormat` | include/mqtt5/protocol/connect.hpp:160-220 | the same for a will |
| `PropertyFormat.PublishListFormat` | include/mqtt5/protocol/publish.hpp:47-113 | the same for PUBLISH, user properties twice; a subscription identifier is an error |
| `PropertyFormat.ReasonListFormat` | include/mqtt5/protocol/publish.hpp:224-248 | the same for the packets with a reason string |
| `PropertyFormat.DisconnectListFormat` | include/mqtt5/protocol/disconnect.hpp:25-63 | the same for DISCONNECT |
| `PropertyFormat.SubscribeListFormat` | include/mqtt5/protocol/subscribe.hpp:42-68 | the same for SUBSCRIBE; a subscription identifier is an error |
| `PropertyFormat.AnyFlag` | include/mqtt5/protocol/connect.hpp:341-380 | a boolean property is set by any value but 0 |
| `PropertyFormat.OtherIdentifiers` | include/mqtt5/protocol/properties.hpp:143-204 | an identifier outside the table, looked up by its low eight bits, is followed by one byte |
| `PropertyFormat.SubscriptionIdentifierIsRefused` | include/mqtt5/protocol/publish.hpp:66-68 | a PUBLISH with a subscription identifier never reads: the property is binary in the table and asked for as a number |
| `RecordRoundTrips.ConnectRoundTrip` | include/mqtt5/protocol/connect.hpp:110-145 | the typed CONNECT properties survive the generic list, any bytes following |
| `RecordRoundTrips.ConnackRoundTrip` | include/mqtt5/protocol/connect.hpp:341-419 | the typed CONNACK properties do |
| `RecordRoundTrips.WillRoundTrip` | include/mqtt5/protocol/connect.hpp:160-220 | the will properties do |
| `RecordRoundTrips.PublishRoundTrip` | include/mqtt5/protocol/publish.hpp:47-113 | the PUBLISH properties do, but for doubled user properties and a 16-bit expiry |
| `RecordRoundTrips.ReasonRoundTrip` | include/mqtt5/protocol/publish.hpp:224-248 | the reason-string properties of acknowledgements do |
| `RecordRoundTrips.DisconnectRoundTrip` | include/mqtt5/protocol/disconnect.hpp:25-63 | the DISCONNECT properties do |
| `RecordRoundTrips.SubscribeRoundTrip` | include/mqtt5/protocol/subscribe.hpp:42-68 | the SUBSCRIBE properties do, without a subscription identifier |
| `RecordRoundTrips.UnsubscribeRoundTrip` | include/mqtt5/protocol/unsubscribe.hpp:25-43 | the UNSUBSCRIBE properties do |
| `RecordRoundTrips.RecordRoundTrip` | include/mqtt5/protocol/properties.hpp:416-440 | write what is not default, dedupe, append user and unknown properties, print, parse, re-dispatch: for any record type whose handler stores each of its own properties |
| `Records.DeserializeRecord` | include/mqtt5/protocol/connect.hpp:110-127 | the dispatch loop over the parsed list folds the handler |
| `Records.SerializeRecord` | include/mqtt5/protocol/connect.hpp:129-145 | conditional additions, then the base, then the list printer |
| `Records.SerializePublish` | include/mqtt5/protocol/publish.hpp:87-113 | the PUBLISH order of additions, with the user properties twice |
| `Records.SerializeSubscribe` | include/mqtt5/protocol/subscribe.hpp:59-68 | a non-zero subscription identifier is an error |
| `Properties.RoundTrip` | include/mqtt5/protocol/properties.hpp:332-357 | a typed list parses back with any suffix, which is left |
| `Properties.PrefixIsExact` | include/mqtt5/protocol/properties.hpp:345-357 | the counted length prefix is the number of bytes written after it |
| `Properties.PropertyRoundTrip` | include/mqtt5/protocol/properties.hpp:128-141 | one property whose alternative agrees with its identifier does |
| `Properties.AddAllDistinct` | include/mqtt5/protocol/properties.hpp:363-377 | identifiers other than 38 that are distinct are appended in order |
| `Properties.AddedOnce` | include/mqtt5/protocol/properties.hpp:363-377 | an added property takes the first place of its identifier, or the end; a user property always the end |
| `Properties.AddAllIsDistinct` | include/mqtt5/protocol/properties.hpp:363-377 | however properties are added, no identifier but 38 is written twice |
| `Properties.DeserializeProperty` | include/mqtt5/protocol/properties.hpp:128-135 | the code computes the parse |
| `Properties.SerializeProperty` | include/mqtt5/protocol/properties.hpp:137-141 | the code writes exactly the print |
| `Properties.Deserialize` | include/mqtt5/protocol/properties.hpp:332-342 | the loop over the span computes the parse of the list and terminates |
| `Properties.Serialize` | include/mqtt5/protocol/properties.hpp:344-357 | counting pass, length, writing pass |
| `Properties.AddProperty` | include/mqtt5/protocol/properties.hpp:363-377 | finds and overwrites in place, or appends |
| `Primitives.FixedRoundTrip` | include/mqtt5/protocol/fixed_int.hpp:20-44 | big-endian digits give the number back |
| `Primitives.TextRoundTrip` | include/mqtt5/protocol/string.hpp:26-42 | a string parses back with any suffix if and only if it is shorter than 65536 bytes |
| `Primitives.PairRoundTrip` | include/mqtt5/protocol/string.hpp:52-65 | a pair parses back if and only if both strings are |
| `Primitives.SerializeFixed` | include/mqtt5/protocol/fixed_int.hpp:36-44 | the shifting loop writes the big-endian bytes |
| `Primitives.DeserializeFixed` | include/mqtt5/protocol/fixed_int.hpp:20-34 | the shifting loop reads them, or fails on too few bytes |
| `Primitives.SerializeText` | include/mqtt5/protocol/string.hpp:36-42 | writes a 16-bit truncated length and the bytes |
| `Primitives.DeserializeText` | include/mqtt5/protocol/string.hpp:26-34 | reads length and bytes, or fails |
| `Primitives.DeserializeBinary` | include/mqtt5/protocol/binary.hpp:25-36 | the same for binary data, with its own error |
| `VarInt.RoundTrip` | include/mqtt5/protocol/varlen_int.hpp:51-90 | every value up to 268435455 decodes from its encoding, any bytes following, and takes 1 to 4 bytes |
| `VarInt.Format` | include/mqtt5/protocol/varlen_int.hpp:51-65 | the one to four bytes of every value, and the error beyond |
| `VarInt.Errors` | include/mqtt5/protocol/varlen_int.hpp:68-90 | why decoding fails, and with which exception |
| `VarInt.ShortestEncoding` | include/mqtt5/protocol/varlen_int.hpp:51-65 | no decodable sequence is shorter than the encoding of its value, and the value is in range |
| `VarInt.SettledIsPrefixStability` | include/mqtt5/protocol/varlen_int.hpp:27-37 | the test is true if and only if every extension decodes alike: always the same value and length, or always failing |
| `VarInt.UnsettledCanStillDecode` | include/mqtt5/protocol/varlen_int.hpp:27-37 | when it is false some extension decodes |
| `VarInt.CanDeserialize` | include/mqtt5/protocol/varlen_int.hpp:27-37 | the scan loop computes the test |
| `VarInt.Serialize` | include/mqtt5/protocol/varlen_int.hpp:51-65 | the do-while loop writes the encoding, or fails above the maximum |
| `VarInt.Scan` | include/mqtt5/protocol/varlen_int.hpp:68-90 | the 32-bit loop returns the mathematical decoding, in range, or fails just where it does; for accepted inputs value and multiplier do not wrap |
| `VarInt.Deserialize` | include/mqtt5/protocol/varlen_int.hpp:39-49 | decodes and consumes exactly the bytes used |
| `TopicFilter.MatcherIsReplacement` | include/mqtt5/topic_filter.hpp:110-159 | for every filter, valid or not, and every non-empty name: true if and only if the name arises by replacing each "+" by one level and a final "#" by any number, and not a wildcard first level against "$" |
| `TopicFilter.EmptyName` | include/mqtt5/topic_filter.hpp:110-159 | of all filters only "#" matches the empty name |
| `TopicFilter.MatchesName` | include/mqtt5/topic_filter.hpp:110-159 | the three-case index loop computes the matcher |
| `TopicFilter.MatchesLevels` | include/mqtt5/topic_filter.hpp:119-133 | the inner loop with its early exit |
| `TopicFilter.PrintOfParse` | include/mqtt5/topic_filter.hpp:55-97 | printing the parse gives the string |
| `TopicFilter.ParseOfPrint` | include/mqtt5/topic_filter.hpp:55-97 | parsing the print gives the levels, empty ones included |
| `TopicFilter.ParseInPlace` | include/mqtt5/topic_filter.hpp:55-75 | the shrinking loop splits at the separators, and its level checks accept exactly the strings of the specification |
| `TopicFilter.IsValidLevel` | include/mqtt5/topic_filter.hpp:23-53 | the level test |
| `TopicFilter.ToString` | include/mqtt5/topic_filter.hpp:84-97 | the accumulating loop joins the levels |
| `TopicFilter.ValidExactly` | include/mqtt5/topic_filter.hpp:55-75 | a string is a valid filter if and only if it is accepted and, when it ends with a separator, what lies between its last two separators has no "#", and no "+" beside other characters |
| `TopicFilter.AcceptedButInvalid` | include/mqtt5/topic_filter.hpp:55-75 | "#/" is accepted although the standard forbids it |

## Left out

- Sockets, name resolution, TLS, WebSocket: a read appends between 1 and the requested number of bytes, or
  reports the end; a write is the order of the calls. Overlapping asynchronous writes are not modelled.
- The state machine around the handlers (connecting, handshake, ping, keep-alive, timers, reconnection)
  and its dispatch: the step relation is a connected client handling one event at a time, and sessions start
  with the CONNACK. Closing is recorded as an event; steps after it are still covered.
- The sender/receiver library, the choice among senders, the argument handling of `publisher` and
  `subscriber`: no state of their own. Exceptions from printing inside a `start()` are not modelled.
- AUTH, topic aliases, UTF-8 validation, ping bodies, `relationship_t`: absent or empty in the source.
- ClientObject.Client.Connack: only the quotas of the CONNACK handler are modelled; keep-alive, the assigned
  client identifier and the connect receivers are not.
- Assertions are those of a release build; the matcher is modelled without its check for wildcards in the name.
- VarInt.Deserialize: on no bytes at all the source reads past the end; the model fails with its
  "not enough data" error instead.
- RecordRoundTrips.SubscribeRoundTrip: subscription identifiers other than 0 cannot be printed at all, since
  the property table stores them as binary, so the round trip is stated for what prints.
- RecordRoundTrips.PublishRoundTrip: the same for the subscription identifier of a PUBLISH.
- Duplex.OrderedExactlyOnce: the channels lose and reorder nothing, as within one network connection;
  redelivery after a reconnect does not exist in the source. Quotas are as coded, and runs go on after a
  DISCONNECT for an exceeded quota, so the theorem covers more runs than can happen.
- EndToEnd.BytesCarryPackets: that the application's own messages print unchanged is its premise;
  `PacketRoundTrips.Faithful` says which do.
- ByteDuplex.OrderedExactlyOnceOverBytes: the same premise; a read takes place when its packet is complete,
  since `Framing.Connection.ReadPacket` has shown that the pieces do not matter.
- Requests.SubscribeIsUnderstood: a SUBSCRIBE body longer than the 28-bit remaining length is outside it.
