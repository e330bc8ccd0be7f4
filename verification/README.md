# OpAMP client: status synchronization, in Dafny

A model of the OpAMP agent client: how it keeps and compresses the agent's
status, how it answers the server, how its polling thread runs, and what the
server can know about the agent over a channel that loses messages.

The client holds two copies of the status. The *synced state* has everything
last set; the *next message* has what changed since the last message was taken.
Setters compare with the synced state, write both copies under two different
locks, and put a token into a channel of capacity one. Taking a message numbers
it and clears the compressed fields, even if sending then fails. Recovery rests
on the server noticing a gap in the numbers and asking for full state, which
makes the client refill the message from the synced state.

## Files

| file | content |
|---|---|
| `Proto.dfy` | message shapes |
| `Health.dfy` | comparison of health reports without timestamps |
| `Capabilities.dfy` | capability bits |
| `Settings.dfy` | start settings and their conversion |
| `Delivery.dfy` | what of a server message reaches the agent |
| `Status.dfy` | what each call, poll and response does to the client, and the coupling of the two copies |
| `Compression.dfy` | which calls enter a message |
| `Client.dfy` | the client's objects, with updates in place, proved against `Status.dfy` |
| `Replication.dfy` | client, lossy channel and server, with uninterrupted calls |
| `Interleaving.dfy` | setter threads and polling thread, one lock or channel operation at a time |
| `Started.dfy` | a started client in terms of the capabilities as listed: what it refuses, delivers and announces, and the latest values after any calls |
| `Overlap.dfy` | when concurrent setters keep the copies coupled, and when not |
| `EndToEnd.dfy` | all interleavings together with channel and server |
| `Unnoticed.dfy` | from every endangering change the calls under way can lead to a difference between client and server of which neither knows, and such a difference stays |
| `HandedOut.dfy` | what the messages handed out have, taken together, and when a value is missing there |
| `Scenarios.dfy` | runs without loss that lead from every start to such a difference |
| `PollLoop.dfy` | the polling loop in time |

## Main results

* **Gap completeness** (`Replication.GapCompleteness`): whatever is lost and
  however often the server restarts, each field is pending, or seen by the
  server, or the server is asking or will notice a gap. The alarm ends only with
  a report of full state, and that message alone has everything
  (`AlarmEndsWithFullReport`); one exchange plus one request restore agreement
  (`BoundedRecovery`).
* **Gap completeness for every interleaving, exactly.** The comment at
  `opamp-client/src/http/client.rs:40-42` leaves the detection of differences to
  gaps in the sequence numbers. With calls that interleave this is not enough. A
  change of a field is *endangering* if a thread is between its two writes of
  the field, or if a refill has already read the field, or if a callback is
  between its two writes and the server suspects nothing. Without endangering
  changes gap completeness holds in every interleaving of threads, losses and
  restarts (`EndToEnd.InterleavedGapCompleteness`). The condition is exact
  (`Unnoticed.MissedIffEndangered`): the calls under way can lead to a difference
  that goes unnoticed if and only if they can interleave with an endangering
  change. Nothing need be lost for that, except that after a refill that
  has read no value a server which happens to remember the very value now set must
  forget it (`OverlapIsMissed`, `RefillIsMissed`, `CallbackIsMissed`). A callback
  that is overtaken while the server is alarmed does no harm: the alarm lasts until
  a report of full state that is taken after the callback has ended.
* **Such differences from every start**: without any loss, two setters leave the
  server with the value of the one and the client with that of the other
  (`Scenarios.ServerIsLeftBehind`), and a setter that runs between the reading for
  a refill and the refill leaves a server that asked for full state, got it, and
  stopped asking, without the new value (`Scenarios.RefillLeavesServerBehind`). They
  stay in every continuation in which no alarm is raised and nobody sets another
  value (`Unnoticed.DifferenceStays`).
* **When the two copies agree, exactly.** The state and the message are written
  under different locks. A change of a field is *clobbering* if another
  operation on the field is between its two writes, or if a refill has already
  read a value of the field that it will put into the message. Without
  clobbering changes the copies agree on the field whenever nothing is halfway
  (`Overlap.CouplingWithoutOverlap`). The condition is exact
  (`Overlap.ComesApartIffClobbered`): the calls under way can come to rest with the
  older value in the message and the newer one stored if and only if they can
  interleave with a clobbering change, for every field and every kind of overlap:
  threads, callbacks and refills, in any number.
* **Nothing that was set is missing from what was sent, exactly.** In every schedule
  without *losing* changes (as above, with "no full-state answer follows the callback" for
  "the server suspects nothing") each stored value is being set, or pending, or about
  to be refilled, or the latest of its field in the messages handed out; after the
  final disconnect it is the latter (`HandedOut.EveryValueIsHandedOut`). The
  condition is exact (`HandedOut.LostIffLosing`), and a loss need not be made good
  before the client is gone (`HandedOut.LossOutlastsTheClient`).
* **Progress**: an unsent report is handed out, or the loop ends, within a bounded
  number of steps of the polling thread, in every schedule of all the others
  (`Interleaving.UnsentIsHandedOut`).
* **No lost wake-up, conservation of tokens, one poll for a burst, numbering,
  identity, shutdown, last disconnect** for every schedule of any number of
  threads (`Interleaving`).
* **The polling loop**: exactly one poll for each look at the channels
  (`PollLoop.PollingTask`), no poll too late (`PollLoop.NextPollIsInTime`), bounded
  rates in every window of time (`PollLoop.RateBound`), and how long `stop` waits
  (`PollLoop.StopLatency`).
* **A started client** refuses, delivers and announces exactly what its list of
  capabilities says, in every state it reaches, down to the binary digits on the
  wire (`Started`, `Capabilities.WireDigits`), and its state and message hold the
  latest values (`Started.StateIsLatest`, `Started.ConfigIsLatest`).

## Where the code and its comments differ

The model follows the code.

* `opamp-client/src/operation/settings.rs:135-136` says that `ReportsStatus` is set
  automatically. Only the listed bits are sent (`Replication.FirstMessageIsFull`).
* `opamp-client/src/http/managed_client.rs:110` wants the minimum between polls to be less than the
  interval. For a request of one second or less they are equal (`PollLoop.WithInterval`).
* A refill asks for the effective config without looking at
  `ReportsEffectiveConfig`, and an error there erases a pending one
  (`Status.PendingConfigIsLostIff`).
* `opamp-client/src/operation/callbacks.rs:108-110` says that calls of `get_effective_config` exclude each
  other; nothing in the code does that, and nothing here relies on it.
* `opamp-client/src/client.rs:119-123` says that `stop` cancels callbacks. It waits for them
  (`Interleaving.StoppedIsFinal`).

## Assumptions about the surroundings

* The server follows the OpAMP specification ("Agent to Server State
  Synchronization", "Agent Status Compression", `AgentToServer.sequence_num`, `ServerToAgentFlags`): it
  merges what it receives, notices a number that is not the successor of the last
  one or that comes when it remembers none, keeps asking for full state until it gets a report of it, and
  sends a command on its own. It may ask for full state at any other time too. As a report of
  full state counts the first message of a client, the first message after a refill, and any other
  that holds the whole state; on each of these the server may stop asking.
* Sequence numbers wrap at 2^64, as in a release build. A gap is noticed exactly when the number of
  messages lost in a row is not a multiple of 2^64 (`Replication.GapNoticedIff`); runs are limited to fewer.
* A description without attributes counts as none: a client started with an
  empty one stores nothing, yet its first message carries it.
* A clone of a hash map iterates in the order of the original. The order itself is arbitrary.
* The answers of callbacks, the setter calls that they make, the outcome of
  sending and the times at which channels are ready are arbitrary inputs.
* The three channels of the loop are tried one after another (`Interleaving`); in `PollLoop` the
  tries of one round happen at one instant.
* The ticker fires no earlier than one interval after it was created or last received.

## Model

| member | source | states |
|---|---|---|
| Health.SameIffUntimedEqual | proto/src/impls.rs:9-27 | the comparison holds exactly when the reports are equal after erasing every status timestamp at every depth |
| Health.SameIsEquivalence | proto/src/impls.rs:14-27 | it is reflexive, symmetric and transitive on trees of any size |
| Capabilities.HasIffListed | opamp-client/src/operation/capabilities.rs:24-50 | a capability is present exactly when it was listed, in any order and with any repetition, and `Unspecified` never is |
| Capabilities.WireDigits | opamp-client/src/operation/capabilities.rs:83-87 | the k-th binary digit of the number sent is one exactly when the k-th capability of the protocol is listed, for every list; there are no further digits |
| Settings.PopulateAgentDescription | opamp-client/src/operation/settings.rs:117-127 | the loop lists the entries in the map's own order |
| Settings.ListingRoundTrip | opamp-client/src/operation/settings.rs:46-127 | for every map and iteration order each key is listed once and the original map can be read back |
| Settings.EmptyIffNoAttributes | opamp-client/src/operation/settings.rs:39-43 | the converted description has no attributes exactly when both maps are empty |
| Proto.FullStateIffOdd | proto/src/proto.rs:815-824 | full state is asked for exactly when the flags are an odd number |
| Delivery.DeliveredIffListed | opamp-client/src/common/message_processor.rs:148-248 | each offer reaches `on_message` unchanged exactly when its capability was listed, a custom message exactly when the agent has its custom capability, a new uid exactly when it is not empty |
| Delivery.DeliveryIsMonotone | opamp-client/src/common/message_processor.rs:148-248 | more capabilities deliver no less and change nothing that is delivered |
| Status.StartIsValid | opamp-client/src/http/client.rs:73-103 | the two copies are coupled at the start, for every start description |
| Status.CallsKeepCoupling | opamp-client/src/http/client.rs:194-352 | any sequence of calls keeps the copies coupled and does not touch number, identity and capabilities |
| Status.ReceiveKeepsCoupling | opamp-client/src/common/message_processor.rs:59-145 | processing keeps the copies coupled whatever calls the callback makes, and a refill holds the whole state as it is after those calls |
| Status.PendingConfigIsLostIff | opamp-client/src/common/message_processor.rs:136-139 | a pending effective config is lost exactly when full state is reported while the callback fails |
| Compression.AcceptedIffNotRepeated | opamp-client/src/http/client.rs:194-352 | in any mixture of calls a call enters the message exactly when it is no error and does not repeat the report of the latest call of its kind |
| Compression.AcceptanceIgnoresTimestamps | opamp-client/src/common/clientstate.rs:93-101 | sequences that differ only in status timestamps have the same calls accepted |
| Started.Replies | opamp-client/src/http/client.rs:194-352 | what each call answers with a given list of capabilities, with the exact error and in the order of the checks |
| Started.StateIsLatest | opamp-client/src/http/client.rs:194-352 | after any calls the state holds the latest value of each kind whose call was no error, of health up to status timestamps |
| Started.ChangesWait | opamp-client/src/http/client.rs:194-352 | whatever the calls have changed in the state waits in the next message |
| Started.ConfigIsLatest | opamp-client/src/http/client.rs:265-292 | after any calls the waiting effective config is the one of the latest successful update, else the one before |
| Started.GatesOnListed | opamp-client/src/http/client.rs:49-69 | a client gates on exactly the capabilities it was started with, at the start and in every reached state |
| Started.EveryMessageAnnounces | opamp-client/src/http/client.rs:95-102 | every message of a started client announces exactly these, digit by digit |
| Started.StartedClientReplies | opamp-client/src/http/client.rs:234-307 | in every reached state a started client refuses a call exactly when its capability was not listed |
| Started.StartedClientDelivers | opamp-client/src/common/message_processor.rs:66-110 | in every reached state each offer reaches `on_message` exactly when its capability was listed, and a command is obeyed exactly when that was |
| ClientObjects.ClientSyncedState.SetAgentDescription | opamp-client/src/common/clientstate.rs:60-72 | stores a description, refuses one without attributes |
| ClientObjects.ClientSyncedState.AgentDescriptionUnchanged | opamp-client/src/common/clientstate.rs:74-82 | true exactly when this description is stored |
| ClientObjects.ClientSyncedState.HealthUnchanged | opamp-client/src/common/clientstate.rs:93-101 | true exactly when a health is stored that is equal without timestamps |
| ClientObjects.NextMessage.Update | opamp-client/src/common/nextmessage.rs:30-35 | applies the modifier and nothing else |
| ClientObjects.NextMessage.Pop | opamp-client/src/common/nextmessage.rs:42-58 | hands out the numbered message and keeps number, identity and capabilities only |
| ClientObjects.Notifier.NotifyOrWarn | opamp-client/src/http/managed_client.rs:147-160 | at most one token, none for a disconnected receiver |
| ClientObjects.InitialMessageAndState | opamp-client/src/http/client.rs:73-103 | never fails; gives the first message and the matching state |
| ClientObjects.OpAMPHttpClient.constructor | opamp-client/src/http/client.rs:49-69 | a new client is in the start state |
| ClientObjects.OpAMPHttpClient.SetAgentDescription | opamp-client/src/http/client.rs:194-221 | whole new state and reply |
| ClientObjects.OpAMPHttpClient.GetAgentDescription | opamp-client/src/http/client.rs:223-229 | the stored description, or an empty one |
| ClientObjects.OpAMPHttpClient.SetHealth | opamp-client/src/http/client.rs:234-261 | whole new state and reply |
| ClientObjects.OpAMPHttpClient.UpdateEffectiveConfig | opamp-client/src/http/client.rs:265-292 | whole new state and reply |
| ClientObjects.OpAMPHttpClient.SetRemoteConfigStatus | opamp-client/src/http/client.rs:298-327 | whole new state and reply |
| ClientObjects.OpAMPHttpClient.SetCustomCapabilities | opamp-client/src/http/client.rs:329-352 | whole new state and reply |
| ClientObjects.OpAMPHttpClient.RunCallback | opamp-client/src/operation/callbacks.rs:67-75 | a callback that calls back into the client any number of times |
| ClientObjects.OpAMPHttpClient.RcvFlags | opamp-client/src/common/message_processor.rs:113-145 | refills the message from the state exactly when the flag is set |
| ClientObjects.OpAMPHttpClient.ProcessMessage | opamp-client/src/common/message_processor.rs:59-110 | whole new state, what `on_message` receives, and when a resend is needed |
| ClientObjects.OpAMPHttpClient.SendProcess | opamp-client/src/http/client.rs:124-155 | one poll: the message sent and the whole new state, for a failed and for an answered request |
| ClientObjects.OpAMPHttpClient.Drop | opamp-client/src/http/client.rs:163-184 | the last message is the next one, marked as a disconnect |
| Replication.GapNoticedIff | proto/src/proto.rs:72-77 | a known server notices losses on the next message exactly when their number is not a multiple of 2^64 |
| Replication.ActionKeepsInv | opamp-client/src/http/client.rs:124-155 | every set, poll, loss, delivery, processing and restart keeps the invariant behind gap completeness |
| Replication.GapCompleteness | opamp-client/src/http/client.rs:40-42 | in every reachable state each field is pending with its synced value or seen with it, or the server asks or will notice a gap |
| Replication.AlarmEndsWithFullReport | proto/src/proto.rs:817-823 | the alarm ends only when a report of full state is delivered, and that message alone, whatever the server saw before, settles every field set up to then |
| Replication.AlarmOutlivesPartialReports | opamp-client/src/common/message_processor.rs:113-145 | in every run without a refill, and without a message that happens to hold the whole state, an alarm stays |
| Replication.BoundedRecovery | opamp-client/src/common/message_processor.rs:113-145 | from any state with the invariant, hence any reachable one, and any memory of the server, one exchange delivered both ways and one delivered request bring the server to the state synced at the second message, with setter calls anywhere in between; and if the answer asked for full state, the second message counts as that |
| Replication.NothingInvented | opamp-client/src/common/nextmessage.rs:42-58 | a server that starts and restarts blank sees no field that was never set |
| Replication.FirstMessageIsFull | opamp-client/src/http/client.rs:84-102 | the first message carries the uid, exactly the listed capabilities and the whole state, from which the attributes can be read back, and nothing else |
| Replication.CommandHidesRequest | opamp-client/src/common/message_processor.rs:66-78 | of an answer with an obeyed command only the callback's calls reach the client; a request for full state is met exactly when there is no obeyed command or those calls happen to leave a full message |
| Interleaving.Reachable | opamp-client/src/http/managed_client.rs:171-238 | every schedule of setter threads and polling thread keeps ownership, conservation of tokens, wake-up, numbering and the disconnect mark |
| Interleaving.NoLostWakeup | opamp-client/src/http/client.rs:207-219 | in every interleaving an unsent report has a token, a thread about to notify, or a poll about to take it, until the thread has stopped |
| Interleaving.UnsentIsHandedOut | opamp-client/src/http/managed_client.rs:186-231 | from every reachable state with an unsent report, at most one notification and then, in every schedule, more than 17 steps of the polling thread (four more per call from a callback) hand out a message or end the loop |
| Interleaving.TokenConservation | opamp-client/src/http/managed_client.rs:142-160 | polls by notification plus the waiting token equal the tokens put in; never more than one waits |
| Interleaving.BurstIsOneToken | opamp-client/src/http/managed_client.rs:200-209 | after any number of notifications between two looks at the channel exactly one token waits |
| Interleaving.BurstIsOnePoll | opamp-client/src/http/managed_client.rs:200-209 | until something notifies again, at most one poll by notification follows a burst, and it has begun exactly when no token waits |
| Interleaving.SequenceNumbers | opamp-client/src/common/nextmessage.rs:42-48 | in every interleaving the k-th message has number k modulo 2^64 and the start capabilities |
| Interleaving.Identity | opamp-client/src/common/message_processor.rs:82-89 | every message carries the last non-empty uid from a response without obeyed command, else the start uid |
| Interleaving.NextCarriesCurrentUid | opamp-client/src/common/message_processor.rs:82-89 | the waiting message always has the last adopted uid; refills, resets and setters do not touch it |
| Interleaving.ReportIsHandedOut | opamp-client/src/http/client.rs:163-184 | a report put into the message is in the next one handed out, the disconnect included, unless a newer one of its kind, or a refill that read something else, replaced it |
| Interleaving.UpdateIsHandedOut | opamp-client/src/http/client.rs:279-290 | in every interleaving, what a call puts into the message, an effective config included, is in the next message handed out unless replaced as above |
| Interleaving.Shutdown | opamp-client/src/http/managed_client.rs:187-253 | after the exit signal at most one poll begins, and only one already selected or tried for past the exit channel; at most one token is still taken, and only in the latter case; then only the final disconnect |
| Interleaving.DisconnectIsLast | opamp-client/src/http/client.rs:163-184 | exactly the last message carries the disconnect and nothing happens after it |
| Overlap.StepKeepsOrderly | opamp-client/src/http/client.rs:194-352 | every step that is not a clobbering change keeps the invariant behind the coupling of one field |
| Overlap.CouplingWithoutOverlap | opamp-client/src/http/client.rs:198-219 | with any threads and messages taken at any time, without clobbering changes of a field the copies agree on it whenever no operation on it is halfway |
| Overlap.ComesApartIffClobbered | opamp-client/src/http/client.rs:198-219 | the condition is exact: from an orderly state the calls under way can come to rest with the copies apart if and only if they can interleave with a clobbering change |
| Overlap.OverlapCanDiverge | opamp-client/src/http/client.rs:198-219 | in every schedule with a clobbering change, from the first one on, the calls under way can come to rest with the copies apart |
| Overlap.ClobberDiverges | opamp-client/src/http/client.rs:242-259 | every clobbering change, by a thread or a callback, against threads, a callback or a refill, can be continued without new calls to a message with the replaced value and a state with the new one, and setting the latter again is ignored |
| Overlap.OverlapIsReachable | opamp-client/src/http/client.rs:329-352 | two threads that set different custom capabilities lead from every start to a clobbering change |
| Overlap.UninterruptedSetter | opamp-client/src/http/client.rs:194-352 | the separate steps of a setter, run through, are the whole call, in every outcome |
| Overlap.UninterruptedResponse | opamp-client/src/common/message_processor.rs:66-145 | the separate steps of processing, run through with any calls from the callback, are the whole processing |
| EndToEnd.NetReachable | opamp-client/src/http/client.rs:124-155 | every schedule of threads, losses, deliveries and restarts without an endangering change of a field keeps the invariant behind gap completeness of that field |
| EndToEnd.InterleavedGapCompleteness | opamp-client/src/http/client.rs:40-42 | gap completeness for every interleaving of threads, losses and restarts without an endangering change of the field |
| Unnoticed.MissedIffEndangered | opamp-client/src/http/client.rs:40-42 | the condition is exact: from every state with the invariant the calls under way can lead to a difference that goes unnoticed if and only if they can interleave with an endangering change |
| Unnoticed.EndangeredRunIsMissed | opamp-client/src/http/client.rs:40-42 | in every schedule with an endangering change, from the first one on, the calls under way can lead to a difference that goes unnoticed |
| Unnoticed.OverlapIsMissed | opamp-client/src/http/client.rs:242-259 | a change by a thread or a callback while another thread is midway: from every state, alarmed or not and without loss, on to a server with another value than the client, for good if no other call on the field is under way |
| Unnoticed.RefillIsMissed | opamp-client/src/common/message_processor.rs:121-140 | a change after a refill has read the field: the refilled message tells of what was read, a value or none, and the server may stop asking on it |
| Unnoticed.CallbackIsMissed | opamp-client/src/operation/callbacks.rs:67-75 | a change by a thread while a callback is midway and the server suspects nothing: the callback's older value reaches the server last |
| EndToEnd.InterleavedRecovery | opamp-client/src/common/message_processor.rs:113-145 | whatever was lost, once an answer without a command has arrived and one more message has been handed out, in every interleaving without further loss the field is being set, pending, or in what was sent to the server |
| EndToEnd.AskedReportIsFull | opamp-client/src/common/message_processor.rs:113-145 | the first message handed out after an answer that asks for full state counts as a report of it, in every interleaving |
| HandedOut.EveryValueIsHandedOut | opamp-client/src/http/client.rs:163-184 | in every schedule without a losing change of a field its value is being set, pending, about to be refilled, or the latest one in the messages handed out; once the disconnect is out, the latter; without a disturbed change no refill is needed |
| HandedOut.LostIffLosing | opamp-client/src/http/client.rs:194-352 | the condition is exact: from every state with the invariant the calls under way can come to a loss if and only if they can interleave with a losing change |
| HandedOut.LossOutlastsTheClient | opamp-client/src/http/client.rs:163-184 | after any losing change, if no other call on the field is under way, all calls can finish and the client be closed and dropped with the value missing from its messages taken together |
| Unnoticed.DifferenceStays | opamp-client/src/http/client.rs:40-42 | a difference of which neither side knows stays in every continuation without an alarm and without another value being set |
| Scenarios.ServerIsLeftBehind | opamp-client/src/http/client.rs:329-352 | from every start and without loss, two setters leave server and client with different custom capabilities, for good |
| Scenarios.RefillLeavesServerBehind | opamp-client/src/common/message_processor.rs:121-140 | such a run from every start, without loss, with any or no value before, and the difference stays |
| PollLoop.WithInterval | opamp-client/src/http/managed_client.rs:95-122 | interval and minimum for every requested interval, exactly |
| PollLoop.PollingTask | opamp-client/src/http/managed_client.rs:186-231 | one poll for each look at the channels, of the kind that the look calls for, up to the first exit or disconnected channel, which ends the loop |
| PollLoop.NextPollIsInTime | opamp-client/src/http/managed_client.rs:200-227 | no poll is late: the next one comes within one interval, or the rest, of the end of a notified poll, and within one interval of the beginning of a scheduled one, plus the lateness of the ticker |
| PollLoop.FirstPollIsInTime | opamp-client/src/http/managed_client.rs:184-227 | the first poll of the loop comes within one interval, a scheduled one exactly after it |
| PollLoop.DefaultIsThirtySeconds | opamp-client/src/http/managed_client.rs:84-91 | with the default configuration and nothing to notify, reports are thirty seconds apart, plus the lateness of the ticker |
| PollLoop.PollDistances | opamp-client/src/http/managed_client.rs:211-227 | a scheduled report comes a whole interval after any earlier poll; after a notified poll the loop rests |
| PollLoop.RateBound | opamp-client/src/http/managed_client.rs:200-227 | in any window W at most W/min + 1 notified and W/interval + 1 scheduled polls |
| PollLoop.DefaultRate | opamp-client/src/http/managed_client.rs:84-91 | the rates for the default configuration, a notified poll every five and a scheduled one every thirty seconds |
| PollLoop.RequestedRate | opamp-client/src/http/managed_client.rs:95-122 | the rates for every requested interval, clamped as the client does |
| PollLoop.ExitEndsPolling | opamp-client/src/http/managed_client.rs:194-199 | no poll is selected from the exit signal on, and the first look from then on ends the loop |
| PollLoop.StopLatency | opamp-client/src/http/managed_client.rs:246-253 | the loop ends when it has been signalled and is free, at most the longest poll and one rest after the signal |

## Left out

- GapCompleteness: runs in which 2^64 or more messages are lost in a row are excluded; there the gap can be missed, as `GapNoticedIff` says.
- InterleavedGapCompleteness: excludes endangering changes of the field, exactly those from which it can fail (`Unnoticed.MissedIffEndangered`).
- InterleavedRecovery: excludes every change that overlaps with another operation or a refill, also those that a further refill will make good.
- LossOutlastsTheClient: other calls on the field that are still to write it are excluded; they may set the value again before the disconnect.
- UnsentIsHandedOut: steps are counted, not time; that a callback returns and that sending ends is an assumption about the agent and the network.
- StoppedIsFinal: dropping a client that was never started is only modelled by `OpAMPHttpClient.Drop`.
- HTTP, gzip and protobuf coding (`sender.rs`, `http_client.rs`, `compression.rs`): sending either fails or is answered; the bytes are not modelled.
- Poisoned locks and panics: no thread is assumed to panic while it holds a lock.
- Package statuses have no public setter; the field is carried and stays empty.
- Package syncing and OpAMP connection settings are commented out in the source.
- `error_response` only causes a log line.
- The parsing and printing of instance uids belong to the `uuid` library; a uid is a sequence of bytes.
- Doubles are compared by bits; a NaN attribute would be sent again each time it is set.
- A callback that calls back into the client while the message lock is held (from `get_effective_config` in a refill) blocks forever in the source and is not modelled.
- In `Client.dfy` the callbacks `on_connect` and `on_connect_failed` make no calls; `Interleaving.dfy` lets them.
- Debug formatting, tracing and the name tables of the generated enums.
