# Sidewire's delivery layer, modelled and proved in Dafny

Sidewire delivers signed messages between two public keys over public MQTT brokers that may
lose, repeat, delay and reorder anything. This project models that delivery layer, the wire
formats under it and the broker selection above it, and proves what they promise over every run.

`dafny verify dfyconfig.toml` checks everything.

## How it is laid out

| file | contents |
|---|---|
| Basics, Varint, Packets, AppCodec | bytes, MQTT remaining length, fixed header and PUBLISH, the signed application packet |
| Reader, WholeStack | the incremental reader with any chunking and any number of interleaved reader tasks; the composed round trip |
| InFlight | the packet-id allocator and the tables of broker-ack futures |
| Messages, ClientOps, MqttClient | queues of one client; each operation as a function; the client object whose methods update its fields |
| Delivery | all routers, clients and brokers as one step system; where acks come from |
| AtMostOnce, SecondCall | how often handlers can be called with one content, and exactly when a second call is possible |
| Fifo | in-order delivery of one queue under stop-and-wait; why forgetting old acks is safe |
| SmartPipe, SendMeaning, SendOrder, Suppressed | fan-out with cleanup; what the result of a send says about the destination, in which order successive sends come up there, and when the handlers are called |
| Dispatch, Scan, Attempts | the rule for one queued entry; a scan over all queues as a run of the system, and when it survives; what a dispatcher publishes over its scans, and how late |
| Ranking, Walk, Meeting, Interleave | rendezvous ranking, the per-family broker walk, whether two walks are sure to have a broker in common, bucket interleaving |
| RouterCache | the discovery cache, protected clients and the idle closer |

Code that updates state has both forms: a function on values says what an operation does and is
what the theorems are about, and a method with the source's own loops is proved equal to it.
`MqttClient.Mqtt.HandlePublish`, `ResumeMessage`, `BeginAck` and `FinishAck` tie the object to the
steps of `Delivery`, so results over runs are results about these methods.

## The network and the clock

A broker is the set of everything ever published through it. A delivery step may hand any of it
to the subscriber of its topic, at any time and any number of times; that covers loss,
duplication and reordering. Receiving a message is three steps, cut at the source's awaits (digest
and handlers, then the ack's signature), and any other task may run in between. Routers are sets of
clients with one key and one shared table of content stamps. There is one clock for all.
Queueing, publishing, pruning, dequeueing, probing and reconnecting are free at any moment; so is
the publication of an entry whose queue a scan is still iterating over although it was dequeued.
SHA-256 is taken to be injective (a content stands for its digest). ECDSA is a parameter of which
only "what a key signs verifies under its public key" is assumed.

## What the model shows about the code

- One queue is delivered in order under stop-and-wait, on any clock and any network, whatever all
  other queues and senders do, as long as nobody sends its contents to the same peer in another way
  (`Fifo.InOrderDelivery`). That is about contents coming up for the first time; whether one comes up
  twice depends on the clock. Successive sends of a pipe use a fresh id each; for them, that each is
  awaited is what keeps their contents in order (`SendOrder.SendsInOrder`).
- The same signed packet can be handled a second time exactly strictly inside (timestamp + 2R,
  timestamp + 2R + 1 + hold), where `hold` bounds the time between age check and stamp, the await at
  app_proto.py:51 (`SecondCall.SecondCallExactly`). Two things open that window: the age check at
  mqtt_proto.py:121 floors the clock while the pruning at mqtt/utils.py:130 does not, and a second may
  pass during the await. On a clock that shows whole seconds only the other remains: a packet is
  handled at most once exactly if no message waits a full second there
  (`SecondCall.AtMostOnceExactly`). There is no third call as long as 2R is at least 1 + hold
  (`AtMostOnce.NeverThreeTimes`).
- The queue of acks is keyed by queue id alone, so a message of any sender makes the receiver forget
  the older acks under its id (`ClientOps.ForgettingIgnoresSender`). For the queue's own sender that is
  safe (`Fifo.DroppedAcksWereReceived`).
- Contents are told apart whoever sends them: a message whose content the peer has stamped already is
  acknowledged without a call of the handlers (`Suppressed.AckedWithoutCall`,
  `SendMeaning.OwnCallExactly`).
- A packet of reserved type 0 or 15 raises out of the reader after its bytes have left the buffer
  (mqtt_reader.py:41-44), so what is handled depends on how the stream was cut exactly when a
  well-typed packet follows such a one, for one reader (`Reader.ChunkingExactly`) and for any number
  of interleaved ones (`Reader.InterleavingExactly`).
- A remaining length of 2^28 or more is written without complaint, although the docstring at
  mqtt/utils.py:8 says up to four bytes, and is then unreadable (`Varint.RoundTrip`).
- `iter_all_messages` looks up queues it has listed before (mqtt/utils.py:70-72). A scan ends with a
  KeyError exactly if a message or ack queue is dequeued as a whole between its listing and its turn
  and not made again (`Scan.ScanFailsByDequeue`), as the cleanup of a send does
  (smart_pipe.py:173-174, `Scan.CleanupEndsScan`). An ack that settles the last probe of a queue removes
  that queue too (app_proto.py:145-148), but never in between: probe queues are listed and looked up
  without a suspension. The KeyError is not among the exceptions the dispatcher catches
  (mqtt_dispatch.py:73-76), so it ends the loop. A finished task is not None, so mqtt_client.py:197
  starts no other.
- The dispatcher reads the clock once per scan (mqtt_dispatch.py:52) and awaits a send for each entry,
  so its duration check is about the start of the scan: an entry goes out after created + R exactly if
  the clock passed that moment while the scan was suspended (`Attempts.LateExactly`), and in some run at
  every moment before created + R + hold and at none after, where `hold` bounds the time from the start
  of a scan to its last publication (`Attempts.PublicationExactly`).
- `send` awaits its own tasks before it withdraws the message id (smart_pipe.py:166-174). The withdrawal
  is skipped exactly if the call is cancelled at that await, which suspends whenever a task is still
  listed, even if all are done (from Python 3.12 on only if one is not). Then a client keeps the id
  unless others dropped it (`SmartPipe.Pipe.Send`, `SmartPipe.InterruptedSendKeepsId`), and goes on
  publishing the message, acknowledged or not, until its duration is over: mqtt_client.py:176 has its
  dispatcher publish answered entries too.
- Probes are numbered by queue length (mqtt_client.py:304), which displaces a pending probe after an
  earlier one was answered and deleted (`ClientOps.ProbeNumberCollides`, `ProbeDisplacesExactly`);
  messages use the maximum and never collide.
- router.py:272-275 promises a freshly opened client a full idle window counted from its connect
  time, but `last_connect` is only set by failed connects (utils.py:114-124), and a send over a closed
  client, which a retained pipe makes, sets `last_send`. A client opened after an earlier failure, or
  after such a send, is closed early, and by the very next pass if that is 600 s ago
  (`RouterCache.FreshWindowExactly`, `RetriedClientClosedAtOnce`, `RetriedClientExample`,
  `StaleSendExample`). The same file speaks of a five-minute window; the constant is 600 s.
- `close_idle_clients` awaits inside the iteration over the dictionary that `ensure_client` extends
  (router.py:262-294, router.py:181). A new broker of that family raises a RuntimeError, which
  router.py:252-257 does not catch: the closer is gone exactly if one is first used while a pass closes a
  client (`RouterCache.CloserDiesExactly`, `DeadForGood`). A send made while the closer is closing that
  client does not save it and is forgotten (`RouterCache.SendDuringCloseForgotten`).
- A client that is connected again before its close is over gets a dispatcher that ends with its first
  step (mqtt_dispatch.py:34-35), while `dispatcher_task` stays set: try_client and the cache hand the
  client out as open. A cached client that was open when stored is running, or about to, exactly unless
  its dispatcher made its first step during a close, or failed, and the client was not closed since
  (`RouterCache.CachedClientRuns`, `DeadClientHandedOut`).
- utils.py:139-144 says two peers pick the same top N. The first connects to complete are taken, so
  the set is independent of the order exactly if no more brokers of the window can be reached than
  are wanted (`Walk.SameSetExactly`); where all can be reached, exactly with fewer than two candidates
  (`Walk.SameTopNExactly`). What does converge is the window of candidates (`Walk.WindowsOverlap`).
  That the two sets are sure to intersect holds exactly if the two walks together take more brokers
  than either of them reaches (`Meeting.MeetExactly`); with the same window and reach, exactly if fewer
  than twice as many as wanted can be reached, and some (`Meeting.SameWindowMeets`), so never when all
  candidates can be (`Meeting.NeverSureWhenAllReached`).
  The repository's README.md:130-133 describes interleaved families; the walk treats each family by
  itself.
- A caller that gives up on a broker ack keeps its packet id in use until the next reset
  (`InFlight.AckFreesExactly`, `InFlight.AbandonedIdStaysInUse`).
- Sending an empty message reports 0 even when it was acknowledged (`SmartPipe.Pipe.Send`).

## Model

| member | source | states |
|---|---|---|
| Fifo.InOrderDelivery | src/sidewire/mqtt/app_proto.py:17-65 | in every run in which the caller of one queue awaits each ack and nobody else sends the queue's contents to its peer, on any clock and network and whatever all other queues do: the queue's contents come up at the peer as a prefix of what was queued, never behind the acks received and at most one ahead |
| Fifo.InOrderOnce | src/sidewire/mqtt/app_proto.py:46-59 | if moreover the clock shows whole seconds and no second passes between the age check and the stamp of a message of the queue, the handler calls themselves are that prefix: none is repeated |
| Fifo.CallsAreFirsts | src/sidewire/mqtt/app_proto.py:51-59 | the calls for a queue are its first-time contents exactly if no message of it is handled twice |
| Fifo.DroppedAcksWereReceived | src/sidewire/mqtt/app_proto.py:17-30 | on any clock and for any contents: in every run in which the caller of one queue awaits each ack, when a message of the queue makes its receiver forget a queued ack, the sender's future for that number is already resolved |
| Fifo.AllDropsSafe | src/sidewire/mqtt/app_proto.py:17-30 | if nobody but the sender uses the queue's id towards the peer, this holds whichever message makes the peer forget an ack under the id |
| ClientOps.ForgettingIgnoresSender | src/sidewire/mqtt/app_proto.py:22-30 | which acks a message makes the receiver forget does not depend on who sent it |
| Fifo.FireKeepsOrder | src/sidewire/mqtt/app_proto.py:51-59 | a handler call for a message of the queue repeats a content or brings the next one of the queue |
| AtMostOnce.WholeSecondAtMostOnce | src/sidewire/mqtt/app_proto.py:46-59 | with a whole-second clock two handler calls of a router are for different packets, over all its brokers and any interleaving of deliveries, prunes and reconnects, unless a second passed between the age check and the stamp of the later one |
| AtMostOnce.WholeSecondWindow | src/sidewire/mqtt/mqtt_proto.py:119-133 | with a whole-second clock a second call for a packet falls in (timestamp+2R, timestamp+2R+hold] |
| AtMostOnce.EqualContentSpacing | src/sidewire/mqtt/utils.py:122-131 | on any clock, two handler calls of a router with equal content lie more than 2R apart |
| AtMostOnce.SecondCallWindow | src/sidewire/mqtt/mqtt_proto.py:119-133 | a second call for the same packet falls strictly between timestamp+2R and timestamp+2R+1 (plus the time its digest took) |
| AtMostOnce.NeverThreeTimes | src/sidewire/mqtt/mqtt_proto.py:119-133 | the same packet is never handled three times, as long as 2R is at least one second plus the wait |
| SecondCall.SecondCallExactly | src/sidewire/mqtt/mqtt_proto.py:121-122 | a second handler call for a packet at x, after a wait of at most `hold` between age check and stamp, happens in some run if and only if timestamp+2R < x < timestamp+2R+1+hold |
| SecondCall.WholeSecondCallExactly | src/sidewire/mqtt/app_proto.py:46-59 | on whole-second clocks: if and only if x is a whole second in (timestamp+2R, timestamp+2R+hold] |
| SecondCall.AtMostOnceExactly | src/sidewire/mqtt/app_proto.py:46-59 | on whole-second clocks a packet is handled at most once in every run if and only if no wait reaches a full second |
| SecondCall.HandledTwice | src/sidewire/mqtt/app_proto.py:46-59 | the run over two brokers that handles a packet twice, for every age check the gate lets through and every later moment past 2R |
| Delivery.AckSoundness | src/sidewire/mqtt/app_proto.py:116-149 | in every run, a future resolved by an ack means the addressed peer received a packet of this sender with this queue id and number and queued an ack for it; if it was a message, its handlers have run |
| Delivery.StepExtends | src/sidewire/mqtt/mqtt_proto.py:69-142 | no step takes back a publication, a handler call or a receipt, moves the clock back or adds a client |
| Delivery.StepKeepsChain | src/sidewire/mqtt/mqtt_proto.py:69-142 | every step keeps the chain of justification: acks on the wire and in queues are backed by receipts, receipts by publications and handler calls, stamps by handler calls |
| SendMeaning.NonzeroMeansAccepted | src/sidewire/smart_pipe.py:115-176 | a send as a stretch of any run: a nonzero result is the message's length and means that since the call began the destination accepted a message of this sender with this id and content, and its handlers have been called with that content |
| SendMeaning.DoneMeansAccepted | src/sidewire/smart_pipe.py:117-150 | once a future under a fresh private id is done, on any of the sender's clients, the peer has, since the id was fresh, accepted this sender's message under it |
| SendOrder.SendsInOrder | src/sidewire/smart_pipe.py:115-176 | in every run in which a sender makes its sends to a peer one after the other, with contents new to the peer: each handler call for a later send's content comes after one for the content of every earlier send that returned nonzero |
| SendOrder.HandledByThen | src/sidewire/smart_pipe.py:115-176 | the content of a send that returned nonzero has been handled before the next send starts |
| SendMeaning.OwnCallExactly | src/sidewire/mqtt/app_proto.py:51-59 | the handlers are called for a packet if and only if it was resumed while its content had no stamp |
| SendMeaning.RunKeepsResumed | src/sidewire/mqtt/app_proto.py:46-65 | in every run, a message that is acknowledged has been resumed after its digest |
| Suppressed.AckedWithoutCall | src/sidewire/mqtt/app_proto.py:51-65 | from every state in which the peer has a stamp for a content, whatever the two clients hold, and neither has used the queue id yet: a run in which a send of that content is acknowledged and no handler is called |
| SmartPipe.Pipe.Send | src/sidewire/smart_pipe.py:115-176 | every client gets this message for the pipe's peer under the id, pending and signed by the client's key, and nothing else changes by the call; whatever other tasks do to the queues during its awaits, at the end no client of the pipe holds the id if and only if the cleanup's await was not interrupted, or others had dropped the id everywhere; that await suspends exactly if some task is still listed, and the result is the length exactly when some ack came |
| SmartPipe.InterruptedSendKeepsId | src/sidewire/smart_pipe.py:166-174 | the run in which a cancellation reaches the cleanup after the ack has come, and the message stays queued |
| SmartPipe.Pipe.Withdraw | src/sidewire/smart_pipe.py:166-174 | the finally block, with its await |
| SmartPipe.Pipe.QueueAll | src/sidewire/smart_pipe.py:117-131 | the queueing loop adds this message, for the pipe's peer, to the id's queue of every client, or to none if an id is malformed, changes nothing else, and starts a wait for each; a client named once ends up exactly as after queueing it there |
| SendMeaning.QueueAllIsRun | src/sidewire/smart_pipe.py:117-131 | as steps of the system the queueing loop does the same to each client and nothing else, so the results about sends as stretches of a run are about `Pipe.Send` |
| SmartPipe.Pipe.Cleanup | src/sidewire/smart_pipe.py:173-174 | the cleanup loop removes the message's queue from every client and nothing else |
| SmartPipe.WaitFirst | src/sidewire/smart_pipe.py:133-164 | the waiting loop ends, and its result depends on how the waits end, not on the order in which they are seen |
| ClientOps.AckSettlesExactly | src/sidewire/mqtt/app_proto.py:123-149 | an ack changes exactly the pending entry with its id and number that was addressed to its signer, which is then marked as acknowledged or, if it is one-shot, gone; late, repeated or foreign acks change nothing |
| ClientOps.ProbeForgotten | src/sidewire/mqtt/app_proto.py:142-148 | an answered one-shot probe leaves no entry and no empty queue behind |
| ClientOps.ReAck | src/sidewire/mqtt/app_proto.py:22-44 | a second delivery republishes the very ack that is queued and removes exactly the older ones of the queue |
| ClientOps.ArriveExactly | src/sidewire/mqtt/app_proto.py:17-44 | for every client and message, acked before or not: of the acks under the message's id exactly those with a number not below it stay, as they were, everything else is unchanged, and the ack to publish again is the one queued for this number, if there is one |
| Delivery.MessageDelivered | src/sidewire/mqtt/mqtt_proto.py:119-142 | what one delivery of a message does to the whole system: nothing if it is older than 2R; otherwise older acks of its queue go, and either the ack already queued for it is published again or a new receive starts |
| Delivery.NoOlderAcks | src/sidewire/mqtt/app_proto.py:22-30 | in every run, right after a message that passes the age gate the client holds no ack below its number under its id |
| Delivery.ProbeDelivered | src/sidewire/mqtt/app_proto.py:72-113 | a probe not acked yet is answered at once, to its sender and whatever its age; another delivery of it does nothing |
| Delivery.AckIsQueued | src/sidewire/mqtt/app_proto.py:59-65 | a handled message gets an ack queued with its own id and number for its sender, unless one is there, and nothing else happens |
| ClientOps.QueuesExactly | src/sidewire/mqtt/mqtt_ordered_send.py:29-101 | queueing adds exactly one pending entry with this content, destination, id and whole-second timestamp, or nothing under a taken number, and notes a message's content once |
| ClientOps.RefusedExactly | src/sidewire/mqtt/mqtt_ordered_send.py:43-46 | queueing is refused if and only if the id is not 64 or the key not 66 characters long |
| ClientOps.ProbeAnswered | src/sidewire/mqtt/app_proto.py:72-113 | an unanswered probe adds exactly one ack entry, which the dispatcher never sends |
| ClientOps.ProbeQueued | src/sidewire/mqtt/mqtt_client.py:302-337 | a probe is entered under its queue's size, as one the dispatcher never sends, and nothing else changes |
| ClientOps.DequeueExactly | src/sidewire/mqtt/mqtt_client.py:397-423 | without a number exactly that queue goes; with one exactly that entry is marked done, if it was pending |
| ClientOps.FreshNumber | src/sidewire/mqtt/mqtt_ordered_send.py:57-101 | a new message gets an unused number above all others of its queue, other entries stay, and an untouched queue is numbered 0, 1, 2, ... |
| ClientOps.ProbeNumberCollides | src/sidewire/mqtt/mqtt_client.py:302-328 | after two probes and one answer, a third takes the place of the pending second |
| ClientOps.ProbeDisplacesExactly | src/sidewire/mqtt/mqtt_client.py:302-328 | a probe displaces an entry if and only if the queue's size is one of its numbers |
| MqttClient.Mqtt.OrderedAckSend | src/sidewire/mqtt/mqtt_ordered_send.py:29-101 | the queueing method has exactly the effect of `OrderedSend`, nothing on a bad id |
| MqttClient.Mqtt.MessageArrives | src/sidewire/mqtt/app_proto.py:17-44 | the loop over queued acks leaves exactly those with a number not below the message's and returns the one to publish again (`ClientOps.ArriveExactly`) |
| MqttClient.Mqtt.FirstSeen | src/sidewire/mqtt/app_proto.py:51-55 | a content is new exactly when the shared table has no stamp for it, and is then stamped |
| MqttClient.Mqtt.ProcessAppAck | src/sidewire/mqtt/app_proto.py:116-149 | the two-table search settles exactly what `OnAck` settles |
| MqttClient.Mqtt.ProcessAppProbe | src/sidewire/mqtt/app_proto.py:72-113 | a probe is answered once per (queue, number) and its ack is registered as one-shot |
| MqttClient.Mqtt.SendOneProbe | src/sidewire/mqtt/mqtt_client.py:266-337 | registering and publishing a one-shot probe has the effect of `SendProbe` |
| MqttClient.Mqtt.HandlePublish | src/sidewire/mqtt/mqtt_proto.py:69-142 | the gates and the routing of a received packet are exactly the delivery step of the step system |
| MqttClient.Mqtt.ResumeMessage | src/sidewire/mqtt/app_proto.py:46-59 | what follows the digest is exactly the stamping step: stamps, handler calls and other routers' tables |
| MqttClient.Mqtt.BeginAck | src/sidewire/mqtt/mqtt_ordered_send.py:118-147 | the part of the ack's queueing before its signature is exactly the corresponding step |
| MqttClient.Mqtt.FinishAck | src/sidewire/mqtt/mqtt_ordered_send.py:149-164 | the part after the signature is the next step; the ack is lost if and only if its queue has gone |
| MqttClient.Mqtt.DequeueMsg | src/sidewire/mqtt/mqtt_client.py:397-423 | dropping a queue or marking one entry done has the effect of `Dequeue` |
| MqttClient.Mqtt.PruneMsgIds | src/sidewire/mqtt/utils.py:122-131 | both tables keep exactly the records not older than 2R |
| MqttClient.StampTable.Prune | src/sidewire/mqtt/utils.py:129-131 | the pruning loop keeps exactly the records within the age |
| MqttClient.OneStampForAllClients | src/sidewire/router.py:176-181 | of two clients of a router that see one content, the second is told it is not new |
| Dispatch.RetransmissionDiscipline | src/sidewire/mqtt/mqtt_dispatch.py:79-136 | for every jitter and schedule: no scan that starts at or after created+R publishes the entry, the counter counts the attempts, `updated` is the start of the last scan that made one, one-shot and already acked entries are never sent, the packet never changes |
| Dispatch.SentExactly | src/sidewire/mqtt/mqtt_dispatch.py:88-127 | an entry with k attempts is sent under every jitter if and only if it is eligible and its last attempt is at least the interval, doubled k times, or 60 s, or R ago; under some jitter if and only if it is eligible and the last attempt is not in the future |
| Dispatch.NextAttempt | src/sidewire/mqtt/mqtt_dispatch.py:103-127 | in every life of an entry, for every jitter drawn: the first eligible visit that comes that long after the previous attempt, for the number of attempts made, publishes it |
| Dispatch.MayPass | src/sidewire/mqtt/mqtt_dispatch.py:103-114 | for every sequence of visits that all come sooner than that, some jitters make all of them pass |
| Dispatch.AttemptsAscend | src/sidewire/mqtt/mqtt_dispatch.py:111-127 | the start times of the scans that make the attempts never decrease |
| Scan.ScanFailsByDequeue | src/sidewire/mqtt/utils.py:65-76 | in a reachable system a scan over all message types, with any steps of other tasks at each of its suspensions, ends with a KeyError if and only if a listed message or ack queue was dequeued as a whole before its turn and not made again |
| Scan.ScanFailsExactly | src/sidewire/mqtt/utils.py:65-76 | in any state: if and only if some step removed a listed queue before its turn and none made it again |
| Scan.PresenceStep | src/sidewire/mqtt/app_proto.py:145-148 | which steps of the system remove a queue and which create one, by their guards; no other step does either |
| Scan.OnlyTheseRemove | src/sidewire/mqtt/mqtt_client.py:397-412 | in reachable states a queue goes only by being dequeued as a whole or, for probes, when an ack settles its last one |
| Scan.CleanupEndsScan | src/sidewire/smart_pipe.py:173-174 | the cleanup of a send during the scan of an earlier queue makes the scan fail |
| Scan.CompletedScanTurnsAll | src/sidewire/mqtt/utils.py:65-76 | a scan that completes has given a turn to every queue of every type that was there when it came to that type |
| Scan.StopsWhenPipeLost | src/sidewire/mqtt/mqtt_dispatch.py:53-55 | a scan visits no entry once it finds the pipe down, and gives up for no other reason |
| Scan.ScanInOrder | src/sidewire/mqtt/utils.py:68-72 | messages have their turn before acks, and acks before probes |
| Attempts.ScanPublishesDue | src/sidewire/mqtt/mqtt_dispatch.py:52-63 | with any steps of other tasks during a scan, what it publishes was due at the start of the scan, had waited longer than some jitter drawn, and is still queued at that moment |
| Attempts.TurnAscends | src/sidewire/mqtt/utils.py:73-76 | what a scan publishes of one queue in its turn, it publishes in ascending order of the numbers |
| Attempts.LateExactly | src/sidewire/mqtt/mqtt_dispatch.py:52-63 | a scan publishes only what was created less than R before its start, and publishes it at or after created+R if and only if the clock reached that moment during an earlier suspension of the scan |
| Attempts.PublicationExactly | src/sidewire/mqtt/mqtt_dispatch.py:111-136 | in some run of the system an entry is published at clock y, by a scan that publishes for no longer than `hold`, if and only if y < created+R+hold (for R > 0, see mqtt_client.py:186, and y not before its creation) |
| Attempts.DispatchedIsScheduled | src/sidewire/mqtt/mqtt_dispatch.py:38-63 | a run made of scans one after the other and anything between them is one in which the client publishes only entries that are due, within `hold` of the start of a scan |
| Attempts.AttemptsInRun | src/sidewire/mqtt/mqtt_dispatch.py:79-136 | in every such run, as long as a message or ack stays queued: it is published before created+R+hold by the clock, only by scans that started before created+R, the counter counts the attempts, `updated` is the start of the last scan, and the packet never changes |
| Attempts.CompletedScanPublishes | src/sidewire/mqtt/mqtt_dispatch.py:52-63 | a scan that completes publishes every message and ack that is queued throughout the scan (and unanswered, if answered ones are skipped), is younger than R at its start and was last sent at least min(60, R) before it, whatever the jitter and the steps of other tasks |
| Scan.ScanAll | src/sidewire/mqtt/mqtt_dispatch.py:51-63 | the nested loops over types, listed ids and ascending numbers are that scan |
| Reader.ChunkingExactly | src/sidewire/mqtt/mqtt_reader.py:15-45 | every way of cutting a stream hands over all its well-typed packets in order if and only if none of them follows an ill-typed one |
| Reader.InterleavedReaders | src/sidewire/mqtt/mqtt_reader.py:15-45 | for any chunks, resets and interleaving of reader tasks, frames taken plus buffer are the bytes received and the frames are a prefix of the reference reading; for streams of valid types they are all of it once no task is left |
| Reader.InterleavingExactly | src/sidewire/mqtt/mqtt_reader.py:15-45 | for any stream: all interleavings that have come to rest hand over all its well-typed packets if and only if none of them follows an ill-typed one |
| Reader.LeftoverExactly | src/sidewire/mqtt/mqtt_reader.py:19-37 | nothing can be taken if and only if the buffer is an incomplete packet or four continuation bytes follow the header; in the latter case nothing ever can |
| Reader.ResetForgets | src/sidewire/mqtt/utils.py:82-86 | in every run the frames and the buffer together are exactly the bytes that arrived since the last reset |
| Reader.UnknownTypeBreaksChunking | src/sidewire/mqtt/mqtt_reader.py:39-45 | a stream of a reserved-type packet and a PINGRESP that reads differently in one chunk and in two |
| Reader.DrainSplit | src/sidewire/mqtt/mqtt_reader.py:15-45 | draining may be interrupted anywhere and resumed when more bytes are there |
| Reader.FeedAllDrains | src/sidewire/mqtt/mqtt_reader.py:15-45 | over any chunks the packets handled are the well-typed ones among the frames taken, and frames stay behind only after an ill-typed one |
| Reader.PacketReader.Feed | src/sidewire/mqtt/mqtt_reader.py:7-45 | the framing loop ends and consumes exactly what `Consume` does, also when a packet raises |
| WholeStack.RoundTrip | src/sidewire/mqtt/mqtt_msgs.py:27-40 | any list of packed, framed and concatenated messages, cut and read in any way, comes back with the same topics, ids, signers and fields, in order and without remainder, each frame marked QoS 1, not retained, and DUP as sent |
| WholeStack.ReceiveExactly | src/sidewire/mqtt/mqtt_proto.py:69-117 | a frame is received as a message if and only if it is a PUBLISH laid out from that message with a signature that verifies |
| Packets.PublishRoundTrip | src/sidewire/mqtt/mqtt_msgs.py:27-40 | a built PUBLISH is one frame of type 3 with QoS 1, RETAIN 0 and DUP exactly as asked for, and parses back to its topic, payload and id |
| Packets.ParsePublishExactly | src/sidewire/mqtt/mqtt_packet.py:74-110 | at any QoS, a PUBLISH body parses to given fields if and only if it is laid out from them; the id is there if and only if QoS is not 0 |
| Packets.ParseExactly | src/sidewire/mqtt/mqtt_packet.py:41-71 | a complete packet, with canonical length or not, parses to its two header nibbles and all bytes behind its length, and fails if and only if its type is 0 or 15 |
| Packets.BuildThenParse | src/sidewire/mqtt/mqtt_packet.py:33-71 | parsing undoes building for every valid type and body |
| Packets.FrameRoundTrip | src/sidewire/mqtt/mqtt_packet.py:41-63 | header, canonical length and body are one frame whatever follows, and parse to their parts or to a type error |
| AppCodec.PackThenUnpack | src/sidewire/mqtt/app_packet.py:71-105 | packing succeeds exactly on fields that fit, and unpacking then returns them with the signer's key |
| AppCodec.Layout | src/sidewire/mqtt/app_packet.py:71-105 | which field stands at which byte of the 142 in front of the message, that the signature covers all bytes after itself, and exactly which fields fit |
| AppCodec.UnpackExactly | src/sidewire/mqtt/app_packet.py:149-193 | a payload is accepted exactly when it is long enough and its signature verifies, and the result spells out every byte of it |
| AppCodec.Envelope.Pack | src/sidewire/mqtt/app_packet.py:78-105 | however often a packet object is packed, its bytes carry the time of the first packing |
| Varint.RoundTrip | src/sidewire/mqtt/utils.py:7-45 | decoding undoes encoding if and only if the value is below 2^28, and is malformed otherwise |
| Varint.DecodeThenEncode | src/sidewire/mqtt/utils.py:22-45 | encoding undoes decoding if and only if the bytes carry no superfluous zero group |
| Varint.DecodeWeighs | src/sidewire/mqtt/utils.py:22-45 | a value read is the sum of the groups up to the first byte without continuation bit, group i weighing 128^i |
| Varint.EncodeWeighs | src/sidewire/mqtt/utils.py:7-19 | what is written has that sum, ends where it should, and has no superfluous group |
| Varint.DecodeFailures | src/sidewire/mqtt/utils.py:33-45 | "too short" and "malformed" are told apart by the continuation bits alone |
| Varint.DecodeStable | src/sidewire/mqtt/utils.py:33-45 | a verdict other than "too short" is never changed by later bytes |
| Varint.EncodeLength | src/sidewire/mqtt/utils.py:7-19 | n bytes suffice if and only if the value is below 128^n |
| Varint.EncodeVarint | src/sidewire/mqtt/utils.py:7-19 | the encoding loop writes the base-128 form |
| Varint.DecodeVarint | src/sidewire/mqtt/utils.py:22-45 | the decoding loop with its multiplier computes the recursive reading, with the same failures |
| InFlight.AllocatorComplete | src/sidewire/mqtt/utils.py:105-112 | allocation fails if and only if all 65535 ids are in flight, and otherwise returns the first free id in cyclic order |
| InFlight.EveryIdOnce | src/sidewire/mqtt/utils.py:107-109 | the wrapping counter visits every id exactly once in 65535 advances |
| InFlight.EachFutureSettledByItsOwn | src/sidewire/mqtt/mqtt_proto.py:41-63 | in every run a step settles a future only if pending, and only by an ack of its kind and id, its caller or a reset; no future is pending after a reset |
| InFlight.SettledForGood | src/sidewire/mqtt/mqtt_proto.py:50-51 | a settled future never changes again, in this or any later session |
| InFlight.AckFreesExactly | src/sidewire/mqtt/mqtt_proto.py:44-63 | a broker ack removes exactly the entry of the id in its first two bytes, and only while the future under it is pending |
| InFlight.BrokerAckExactly | src/sidewire/mqtt/mqtt_proto.py:41-63 | in every run, an ack whose first two bytes are an id under which a future of its kind waits resolves exactly that future, with the rest as payload for a SUBACK, and frees exactly that id; every other ack changes nothing |
| InFlight.AckedIdIsFree | src/sidewire/mqtt/utils.py:54-59 | registering and then the ack of the id handed out leave the tables as they were, and the future resolved |
| InFlight.IdBytes | src/sidewire/mqtt/utils.py:108-109 | an id on the wire is its two bytes, the more significant one first |
| InFlight.ResetFreesAll | src/sidewire/mqtt/utils.py:82-98 | after either reset no id is in use, what waited is cancelled, settled futures stay, and only the reconnect's resets the counter |
| InFlight.RunKeepsInv | src/sidewire/mqtt/utils.py:54-98 | over all runs no id sits in two tables, and table entries and pending futures correspond one to one |
| InFlight.AbandonedIdStaysInUse | src/sidewire/mqtt/mqtt_proto.py:50-51 | a run in which a caller gives up, the ack comes, and the id stays in use |
| InFlight.PacketIds.GetPacketId | src/sidewire/mqtt/utils.py:105-112 | the search loop finds the first free id after the counter, or leaves the counter where it ran out |
| InFlight.PacketIds.PacketAckFuture | src/sidewire/mqtt/utils.py:54-59 | a fresh pending future is registered under the allocated id |
| InFlight.PacketIds.HandleBrokerAck | src/sidewire/mqtt/mqtt_proto.py:41-63 | resolving and freeing has the effect of `OnBrokerAck` |
| InFlight.PacketIds.ResetSessionState | src/sidewire/mqtt/utils.py:82-98 | both resets cancel every pending future of both tables and empty them; only the reconnect's resets the counter |
| Ranking.WindowOverlap | src/sidewire/utils.py:57-73 | the n best of two pools share at least n - max(of each side's extra brokers) |
| Ranking.RankRestricts | src/sidewire/utils.py:57-73 | ranking a sub-pool is the whole ranking with the others left out |
| Ranking.SurvivorsMoveUp | src/sidewire/utils.py:57-73 | when brokers leave, no survivor's rank gets worse |
| Ranking.RankDeterministic | src/sidewire/utils.py:57-73 | the ranking does not depend on the order in which a pool lists its brokers |
| Ranking.RankSorts | src/sidewire/utils.py:70-71 | the ranking is sorted and a permutation of the pool |
| Ranking.RankStable | src/sidewire/utils.py:70-71 | brokers with the same score keep the order in which the pool lists them |
| Ranking.RendezvousHash | src/sidewire/utils.py:41-73 | one ranked bucket per supported family |
| Walk.WindowsOverlap | src/sidewire/utils.py:210-264 | two routers with different pools and no hints try at least 10 - max(extras) common brokers |
| Walk.CandidatesExactly | src/sidewire/utils.py:213-243 | the candidates are exactly the known clients of both lists, each once, cached ones in front in their order |
| Walk.NeededExactly | src/sidewire/utils.py:245-255 | the number wanted is floor(log2(candidates)) clamped to 0..3 |
| Walk.WalkResult | src/sidewire/utils.py:260-288 | for any completion order and cap the result is distinct, from the first ten candidates, and as many as wanted or as succeeded |
| Walk.FirstOnesTaken | src/sidewire/utils.py:268-275 | with a success that is taken, every success that completed earlier is taken |
| Walk.EscapesExactly | src/sidewire/utils.py:268-288 | an exception escapes if and only if it comes before enough connects have succeeded |
| Walk.SameSetExactly | src/sidewire/utils.py:268-275 | which brokers the walk takes is independent of the completion order if and only if no more of the window can be reached than are wanted |
| Walk.SameTopNExactly | src/sidewire/utils.py:139-144 | if all candidates can be reached, if and only if there are fewer than two |
| Meeting.MeetExactly | src/sidewire/utils.py:139-144 | however their connects race, two walks with any windows, numbers wanted and brokers in reach take a broker in common if and only if the numbers they take add up to more than the brokers that either reaches |
| Meeting.SameWindowMeets | src/sidewire/utils.py:139-144 | with the same window and reach, if and only if 0 < u < 2 * wanted for u brokers in reach |
| Meeting.NeverSureWhenAllReached | src/sidewire/utils.py:245-264 | never, for a walk whose candidates can all be reached |
| Meeting.TakenExactly | src/sidewire/utils.py:266-275 | the lists a walk can take, over all orders of completion, are exactly the duplicate-free ones of min(wanted, u) brokers of the window in reach |
| Walk.WalkAf | src/sidewire/utils.py:210-291 | the walk's loops list the candidates, start the first ten and keep the first successes, or let an exception escape |
| Walk.CollectCompleted | src/sidewire/utils.py:268-275 | the collecting loop keeps the first `needed` successes in completion order, unless something raises before |
| Interleave.PositionExactly | src/sidewire/utils.py:25-38 | where each item of each bucket stands in the output |
| Interleave.OrderKept | src/sidewire/utils.py:25-38 | every bucket's own order survives |
| Interleave.FairMerge | src/sidewire/utils.py:25-38 | the output is a permutation of all buckets |
| Interleave.InterleaveBuckets | src/sidewire/utils.py:25-38 | the double loop produces that merge |
| RouterCache.CacheNeverStale | src/sidewire/router.py:340-345 | in every run, with any steps during a close, no client handed out from the cache was idle-closed since the entry was stored, and each has a dispatcher_task unless it had none then; except one that is being closed at that moment |
| RouterCache.CachedExactly | src/sidewire/router.py:338-360 | in every run, a list is handed out from the cache if and only if it was stored under the key less than `expiry` ago and since then no other was stored there, no pipe using one of its clients was closed and none of its clients was idle-closed |
| RouterCache.CachedClientRuns | src/sidewire/router.py:340-345 | of those that had one, each has a dispatcher that is running or about to, if and only if no dispatcher of it made its first step during a close, or failed, since its last close |
| RouterCache.EndedExactly | src/sidewire/mqtt/mqtt_dispatch.py:33-35 | in every run, a client is left with a dispatcher that has ended if and only if that one made its first step while the client was being closed, or failed, and no close came since |
| RouterCache.EndedUntilClosed | src/sidewire/utils.py:114-126 | over any continuation in which the client is not idle-closed, connects included, it stays in that state |
| RouterCache.DeadClientHandedOut | src/sidewire/router.py:284-293 | a run in which a client connected during its own idle close is stored and handed out with a dispatcher that has ended |
| RouterCache.ActiveNeverClosed | src/sidewire/router.py:259-310 | in every run, an idle close comes at least 600 s after the last send over that client made before the closer decided to close it |
| RouterCache.SendDuringCloseForgotten | src/sidewire/router.py:284-305 | a send made after that decision neither stops the close nor is remembered |
| RouterCache.CloserDiesExactly | src/sidewire/router.py:262-264 | over every whole pass, with anything else happening during its closes: the closer ends for good if and only if a new broker of the family is first used during one of them, and otherwise the pass comes to its end |
| RouterCache.DeadForGood | src/sidewire/router.py:252-257 | from then on nothing is idle-closed unless the router is started again |
| RouterCache.NewBrokerEndsCloser | src/sidewire/router.py:156-182 | one new broker, first used while an idle client is being closed, is enough |
| RouterCache.ProtectedForGood | src/sidewire/router.py:210-213 | from the moment a client is protected, unless the closer is closing it just then, no idle close touches it and it stays open |
| RouterCache.StartProtects | src/sidewire/router.py:205-208 | that holds from a start on for every client of the group it loads |
| RouterCache.PassClosesExactly | src/sidewire/router.py:259-310 | an undisturbed pass closes exactly the open, unprotected, idle clients, each recorded once |
| RouterCache.ClosesExactly | src/sidewire/router.py:262-282 | the closer's test, in seconds: unprotected, with a dispatcher_task, and 600 s or more since the last send, or if there is none since the last failed connect |
| RouterCache.UnusedFromFirstPass | src/sidewire/router.py:276-279 | for a client that never sent and never failed, the first pass that meets it starts the 600 s: another pass closes it if and only if it comes that much later |
| RouterCache.PassIsRun | src/sidewire/router.py:259-310 | an undisturbed pass is the run of its steps, with as many closings as there are clients to close |
| RouterCache.PassPointwise | src/sidewire/router.py:262-310 | closing one client in a pass affects no other |
| RouterCache.FreshWindowExactly | src/sidewire/router.py:272-281 | a client just opened has a full idle window if and only if it was not sent over since its last close and no earlier connect of it failed at a nonzero time, or it was sent over at this very moment |
| RouterCache.RetriedClientClosedAtOnce | src/sidewire/utils.py:114-124 | after such a failure, or a send 600 s ago or more, the first pass closes it, at whatever moment |
| RouterCache.NewClientFullWindow | src/sidewire/router.py:172-182 | a new broker's client that is opened at its first try has a full idle window |
| RouterCache.RetriedClientExample | src/sidewire/router.py:272-281 | a run in which a client opened at 1205 s is closed at 1205 s, after a failure |
| RouterCache.StaleSendExample | src/sidewire/mqtt/mqtt_client.py:242 | a run in which a client opened at 700 s is closed at 700 s, after a send at 0 s while it was closed |
| RouterCache.EvictAllExactly | src/sidewire/smart_pipe.py:178-188 | closing a pipe drops exactly the entries naming one of its clients |
| RouterCache.TryExactly | src/sidewire/utils.py:114-126 | a client without dispatcher is tried if and only if its last failed connect is 1200 s ago or more, or there is none; success starts a dispatcher, failure is recorded, nothing else changes |
| RouterCache.Table.CloseIdleClients | src/sidewire/router.py:259-310 | the closer's loop, undisturbed, is the pass |
| RouterCache.Table.LookOn | src/sidewire/router.py:262-284 | the loop from one client on, up to its next await, is what a step of the closer does |
| RouterCache.Table.DispatcherEnds | src/sidewire/mqtt/mqtt_client.py:449-461 | the part of the close in which the dispatcher ends is the next step |
| RouterCache.Table.AfterClose | src/sidewire/router.py:289-310 | what follows the await, up to the next one, is the last step of the close |
| RouterCache.Table.TryClient | src/sidewire/utils.py:114-126 | a client is usable unless it failed recently or fails now, and only a failure is recorded |
| RouterCache.Table.Pipe | src/sidewire/router.py:338-360 | a young entry is handed out unchanged; an empty young one is looked past but not replaced; otherwise what discovery found is handed out and stored |
| RouterCache.Table.EvictClientFromCache | src/sidewire/router.py:312-319 | collecting and deleting stale keys keeps exactly the entries not naming the client |
| RouterCache.Table.ClosePipe | src/sidewire/smart_pipe.py:178-188 | closing a pipe evicts its clients and closes none of them |

## Left out

- TCP pipes, route selection, the CONNECT handshake and the sleeps of the reconnect loop; a reconnect is the step that resets session state.
- ECDSA, SHA-256 and the rendezvous score: parameters with the assumptions named above; distinct scores where a theorem needs them.
- Text decoding of topics and messages (`to_s`, `to_b`, hex): messages and topics are bytes in the codecs, keys and ids are strings in the protocol.
- The delivery model passes packets as values; `WholeStack` shows that the bytes carry them. Sequence numbers beyond 32 bits, which `struct.pack` refuses, are bounded only in `AppCodec`.
- All clients of a model share one republish duration and one clock; clock skew between peers is not modelled.
- Exhausted packet ids inside `publish` are modelled in `InFlight`, not as a failure of a delivery step.
- Queueing an explicit MSGACK or PROBE through `queue_msg` by a user; the router itself never does. An explicit sequence number for a message is modelled.
- The PUBACK sent for every received PUBLISH, and SUBSCRIBE, PINGREQ and DISCONNECT packets: the framing of such packets is in `Packets.Build`, when they are sent is not modelled.
- Hostile brokers and cross-topic replay: a broker delivers to a topic only what was published to it.
- Ping timing and the moment the dispatcher prunes (mqtt_dispatch.py:65-72): pruning may happen at any time, which covers every schedule.
- SmartPipe.Pipe.Send: how each wait ends, what other tasks do during the awaits, and whether the call is cancelled at one of them, are inputs. `SendMeaning.NonzeroMeansAccepted` takes the ends of the waits from a run of the system. The cleanup's await is taken to suspend whenever a task is listed, as before Python 3.12.
- RouterCache: the clients are those of one address family, as records numbered in the order of its table; a new broker of another family does not disturb the iteration. The explicit close of a whole router is not part of this model.
- Scan: the scan looks entries up in the queue as it is. That it may also publish entries of a queue dequeued meanwhile is in the step system (`Delivery.Leftover`), not in the scan's own trace.
- Walk.WalkAf: which connects complete before the cap, and in what order, is an input; the retry with a longer cap and the combination of families are not modelled.
- The rate limit of `try_client` is in `RouterCache.Try`; its connect timeout is an outcome.
- The broker-hint disk cache and its validation: hints are an input list. The server list, logging, demos and experiments are not part of this model.
