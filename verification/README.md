# ROS2-Connect: a verified model of the bridge protocol

ROS2-Connect joins two ROS 2 domains over one WebSocket. This project models the
four stateful parts that meet at its byte-level wire format, in Dafny, and proves
what they guarantee together.

| files | part |
|---|---|
| `Types`, `Sequences`, `Wire`, `Messages` | frames, the two header shapes, compressors with their fallbacks, the three in-memory messages and in-place decompression |
| `Transport`, `Topics`, `TopicProgress`, `Routing`, `Paths`, `Configuration`, `Connections` | the write pump, the connection as a FIFO link, the topic pipeline and its progress, dispatch on first byte and op-code, one direction of a connection as an endpoint sees it, accepted configurations, connection shutdown |
| `Subscription`, `Announcements` | the ten-second hysteresis, the distributed agreement about on-demand subscribers, when a publisher announces and what the peer then has |
| `Handshake`, `GoalTrace`, `GoalScripts`, `ActionServer`, `RemoteGoal`, `ActionClient`, `RemoteHistory`, `GoalLink`, `ActionSystem`, `ActionHandshake`, `ActionData`, `ActionProgress`, `ActionWire` | actions: response slots, the trace of an accepted goal, both endpoints, one goal across both sides, all goals over shared queues, when a goal is given up, the data that crosses, progress, and the same system over two byte-level connections |
| `ServiceServer`, `ServiceClient`, `ServiceHistory`, `ServiceSystem`, `ServiceContent`, `ServiceWire` | services: both endpoints, response correlation by gid and the bound on replies, what is sent, replied and removed, both sides over shared queues, what a call returns, and the same system over two byte-level connections |
| `WireProgress` | progress of both protocols over the byte-level connections |

`dafny verify dfyconfig.toml` checks the project.

## How it is built

Objects that the program updates in place are classes, loops are loops, and buffers
are arrays; each method is proved equal to a function of its inputs or of the old
state. Protocols are step functions, where one step is what happens between two lock
or atomic accesses, and a step that is not enabled leaves the state as it is. The
endpoint classes stand for states of these step functions, and each of their methods
is proved to perform the step, or the few steps, of the lines it models, so that the
theorems about runs are theorems about the objects. A run is any finite sequence of
steps, so timeouts, thread schedules and plugin callbacks are the choice of the
sequence. Callbacks that send and then set flags are scripts executed one access at a
time, because other threads run in between.

`ActionWire` and `ServiceWire` tie the parts together: every step of the action or
service protocol over compressed frames, strands, write pumps, read loops, parsers and
routing is one step of the abstract system or invisible to it, so the theorems of
`ActionSystem` and `ServiceSystem` hold of the bytes on the wire. `Subscription` does
the same for notifications (`LinkedAgreement`) and `Topics` for payloads.

Beside what every run keeps, the project states what runs bring about, in terms of the
history of a run rather than of the step functions: when a handle is queued for removal
and what the tables hold once it is gone (`RemovedIffGivenUp`, `EndedGidIsFree`,
`NextRequestIsServed`), what a reply, a request, a goal and its feedback and results
carry (`ReturnedIsProvided`, `DataCrossesUnchanged`, `CallerIsToldByAction`), when a
publisher announces (`AnnouncedExactlyWhenNew`), and that nothing gets stuck
(`EveryScheduleDelivers`, `EverythingIsPublished`, `CallerCatchesUp`,
`TimeoutReachesAction`, `ActionMessagesArrive`, `ServiceMessagesArrive`).

LZ4 and ZLIB are an abstract `Codec`. Its only assumption, `Lawful`, is that a
successful compression is not empty and decompresses, given the original size, to
its input; compression may fail on any input.

## Where the code differs from its documentation or from what one would expect

- `goalRejected` sends GOAL_ACCEPT. `RejectedGoalIsAccepted` is a run in which the
  remote action rejects and the caller accepts, `RejectedGoalNeverEnds` shows that no
  call is ever made on such a goal, and `OutcomeDiffersExactlyOnRejection` that this
  is the only way the two sides differ.
- A CANCEL for an unknown goal is answered with GOAL_REJECT, not CANCEL_REJECT. The
  conservation law counts it as bounced, and `BouncedCancelsChangeNothing` shows that
  the answer leaves the goal it arrives for as it is.
- A gid of more than 255 bytes is stored with its length modulo 256.
  `ServiceRoundTripExact` gives the exact condition.
- An unknown compressor byte loses the frame's contents (`UnknownCompressorIsEmpty`);
  the combined vector equals the received bytes for compressor bytes 0 to 3 only.
- A service gid names the writer, not the call. That no handle with this gid is in the
  table or the removal queue is exactly what links a call to the table
  (`BeginKeepsLinkedIff`), but it does not suffice for correlation. The exact condition
  is that nothing is owed: in every continuation the call holds no response but the
  client's reply to its own request if and only if, when it begins, every earlier
  request with its gid has been answered and the answer heard
  (`ServiceSystem.CorrelatedIffNothingOwed`, and `ResponseFollowsRequestIff` for the
  server alone). Otherwise any owed response that fits is returned
  (`LateResponseIsReturned`), and a call that timed out leaves one owed
  (`AbandonedOwes`).
- The gone-away time uses 0 for "not stored" and is cleared only while positive. So the
  ten-second window holds for a stored reading in every continuation if and only if the
  reading is positive (`WindowHoldsIffPositive`, for arbitrary readings); the clock the
  program builds reads system time (src/publisher/publisherBase.hpp:29), where readings
  are positive.
- `executeAccepted` can leave at its loop head without a terminal call when stopping;
  the contract of `ExecuteAccepted` distinguishes that exit.

## Model

| member | source | states |
|---|---|---|
| Wire.SizeFieldRoundTrip | src/message/messageBase.cpp:55-58 | the four size bytes read back as the size modulo 2^32, for every size |
| Wire.SizeFieldUnique | src/message/rclMessage.cpp:45-49 | any four received bytes are written back unchanged |
| Wire.InflateInvertsCompress | src/message/messageBase.cpp:160-223 | whenever compression is used rather than the fallback, decompressing with the stored size succeeds, within all size limits, with the original data |
| Wire.CombinedVectorIsFrame | src/message/rclMessage.cpp:76-94 | a received message rebuilds exactly the frame it came from, for compressor bytes 0 to 3 |
| Wire.UnknownCompressorIsEmpty | src/message/rclMessage.cpp:64-69 | a frame with any other compressor byte leaves an empty message that the service parser refuses |
| Wire.RclBytesReadBack | src/message/rclMessage.cpp:12-70 | a message's combined vector reads back as the message |
| Wire.TopicRoundTrip | src/message/vectorMessage.cpp:15-29 | every payload survives every compressor and both fallbacks, and the receiver's uncompressed combined vector equals the sender's |
| Wire.CompressedExactly | src/message/messageBase.cpp:12-158 | a payload is sent compressed exactly when the profile has a compressor, the size is within its limit and the library succeeds, by that compressor at that rate and with its size in the header; otherwise plain |
| Wire.ServiceCompressedExactly | src/message/serviceActionMessage.cpp:186-319 | the same for service data, with header and gid in the clear |
| Wire.InflatedExactly | src/message/messageBase.cpp:160-223 | a compressed message is decompressed exactly when its own library yields as many bytes as the header says, within the limit |
| Wire.SubscriptionRoundTrip | src/message/rclMessage.cpp:121-125 | a SUBSCRIPTION frame is read as the channel and value it was made from |
| Wire.ParserSound | src/message/serviceActionMessage.cpp:33-72 | on every readable frame, parsing gives nothing or a message whose header, gid and data partition the frame exactly |
| Wire.ParserComplete | src/message/serviceActionMessage.cpp:37-68 | a frame is refused exactly when it is too short, its op-code exceeds 13, or its gid is cut off |
| Wire.PlainBytesOfMessage | src/message/serviceActionMessage.cpp:74-87 | the spans of a new message cover the buffer that was built, whatever the gid length |
| Wire.ServiceBytesReadBack | src/message/serviceActionMessage.cpp:9-19 | a message's buffer, plain or compressed, parses back to the same fields and spans |
| Wire.ServiceRoundTrip | src/message/serviceActionMessage.cpp:186-319 | for every channel, op-code, gid, data and profile, what the peer opens of a sent frame, including the gid length modulo 256 and the refused empty message |
| Wire.ServiceRoundTripExact | src/message/serviceActionMessage.cpp:74-87 | with a non-empty gid the peer gets the same channel, op-code, gid and data if and only if the gid has at most 255 bytes |
| Messages.MoveDown | src/message/serviceActionMessage.cpp:173 | the ascending byte loop copies the old contents correctly although source and destination overlap, and touches nothing else |
| Messages.ServiceActionMessage.constructor | src/message/serviceActionMessage.cpp:21-31 | over any vector in which the stored gid length stays in bounds the spans are laid where the header says; the message is valid exactly when the vector is the buffer of what they show |
| Messages.ServiceActionMessage.FromMessage | src/message/serviceActionMessage.cpp:33-72 | succeeds exactly when the parser does, on a fresh copy, with valid spans |
| Messages.ServiceActionMessage.NewServiceAction | src/message/serviceActionMessage.cpp:74-87 | the buffer is the plain frame and the message is valid |
| Messages.ServiceActionMessage.Store | src/message/serviceActionMessage.cpp:165-184 | after moving header and gid, resizing and laying the spans again, the message is valid and differs from before in the data only |
| Messages.ServiceActionMessage.Decompress | src/message/messageBase.cpp:160-223 | fails exactly when decompression does and then changes nothing; otherwise the buffer equals the one forServiceAction builds from the same fields |
| Messages.ServiceActionMessage.CompressedCombinedVector | src/message/serviceActionMessage.cpp:186-319 | each compressor yields the compressed frame, or the plain one when it falls back |
| Messages.RclMessage.FromFlatBuffer | src/message/rclMessage.cpp:12-70 | the fields are those of the frame |
| Messages.RclMessage.Decompress | src/message/messageBase.cpp:160-223 | on success the message is the plain topic message of the decompressed data, otherwise it is unchanged |
| Messages.VectorMessage.FromSerializedMessage | src/message/vectorMessage.cpp:15-29 | the buffer is the plain topic frame |
| Messages.VectorMessage.CompressedCombinedVector | src/message/messageBase.cpp:12-158 | the sent bytes decode at the peer to the captured payload |
| Transport.PumpSafe | src/websocketConnection/base/websocketConnectionBase.hpp:271-293 | in every run at most one write is outstanding and it is the queue front; without a write error the queue is non-empty exactly while a write is outstanding; while open, queued equals written followed by queue |
| Transport.WritesCompleteQueue | src/websocketConnection/base/websocketConnectionBase.hpp:282-292 | successful writes complete everything queued on an open stream, in order, one handler per frame |
| Transport.ErrorStrandsQueue | src/websocketConnection/base/websocketConnectionBase.hpp:282-292 | a concrete run in which a failed write leaves a queued frame with no write outstanding |
| Transport.StuckAfterError | src/connection/base/connectionBase.cpp:34-39 | from such a state no further frame is written in any continuation, however many are queued |
| Transport.Connection.QueueMessage | src/connection/base/connectionBase.cpp:34-39 | performs exactly the pump's queueing step |
| Transport.Connection.AsyncWrite | src/websocketConnection/base/websocketConnectionBase.hpp:271-293 | starts a write of the front, or empties the queue when the stream is not open |
| Transport.Connection.OnWritten | src/websocketConnection/base/websocketConnectionBase.hpp:282-292 | pops the written front and re-arms unless the write failed or the queue is empty |
| Transport.LinkIsFifo | src/connection/base/connectionBase.cpp:23-39 | strand, queue, outstanding write and wire together are one FIFO queue for each channel but AUTHENTICATION |
| Transport.ReceiveTakesOldest | src/websocketConnection/base/websocketConnectionBase.hpp:296-331 | a read takes the oldest frame of its channel |
| Transport.DirectOvertakesPosted | src/connection/base/connectionBase.cpp:23-39 | a frame sent from inside the strand joins the sending queue ahead of what is posted |
| Transport.LinkMoves | src/websocketConnection/base/websocketConnectionBase.hpp:271-331 | every step of strand, pump or reader leaves less to do |
| Transport.LinkIsNeverStuck | src/websocketConnection/base/websocketConnectionBase.hpp:271-331 | a link without write errors that holds anything has such a step to make |
| Topics.PipelineConserves | src/subscriber/threadedSubscriber.cpp:28-66 | in every run, published payloads followed by the decoded contents of every stage are the captured payloads, in order, for every profile and any other traffic; nothing was undecodable |
| Topics.DrainedMeansDelivered | src/publisher/threadedPublisher.cpp:20-66 | once the stages are empty the published payloads are the captured ones |
| TopicProgress.EveryScheduleDelivers | src/publisher/threadedPublisher.cpp:26-66 | from every reachable state, without new traffic: every order of steps ends after a bounded number, any that cannot go on has published all that was captured, and every one goes on to such an end |
| TopicProgress.StepsWork | src/subscriber/threadedSubscriber.cpp:28-56 | each step of a thread, the link or a manager leaves less to do |
| TopicProgress.NeverStuck | src/publisher/publisherManager.cpp:80-110 | a pipeline that holds anything has an enabled step |
| Topics.SendKeepsInv | src/subscriber/threadedSubscriber.cpp:48-54 | compressing and sending moves one payload from the sender's hand to the link |
| Topics.ReceiveKeepsInv | src/websocketConnection/base/websocketConnectionBase.hpp:257-268 | reading and dispatching a frame moves one payload to the manager's queue, or none for another channel |
| Topics.RouteKeepsInv | src/publisher/publisherManager.cpp:100-108 | routing hands a message to this channel's publisher exactly when it is of this channel |
| Topics.PublishKeepsInv | src/publisher/threadedPublisher.cpp:51-63 | publishing appends exactly the next captured payload |
| Topics.FramesDecode | src/subscriber/threadedSubscriber.cpp:48-54 | the frames a subscriber sends decode to its payloads, in order |
| Topics.SentIsPublished | src/publisher/threadedPublisher.cpp:51-63 | what a publisher publishes of the frames a subscriber sends is what that subscriber captured |
| Topics.ThreadedSubscriber.Callback | src/subscriber/threadedSubscriber.cpp:58-66 | a captured payload joins the end of the queue |
| Topics.ThreadedSubscriber.Run | src/subscriber/threadedSubscriber.cpp:28-56 | the loop sends one decodable frame per queued payload, in order |
| Topics.PublisherManager.Run | src/publisher/publisherManager.cpp:80-110 | the loop hands every message to the publisher of its channel and no other, in order |
| Topics.PublishersGetTheirOwn | src/publisher/publisherManager.cpp:100-108 | every publisher is handed exactly the messages of its channel, in order |
| Topics.ThreadedPublisher.Run | src/publisher/threadedPublisher.cpp:26-66 | under any deliveries, polls and timeouts each iteration polls for subscribers and consumes the oldest message if there is one; afterwards the first of all that were queued or arrived are consumed, one per iteration that found one, their decodable payloads published in order, and the rest is queued |
| Topics.PublisherLoopConserves | src/publisher/threadedPublisher.cpp:39-63 | over any turns what was published followed by what the queue still decodes to is what the old queue and the arrivals decode to |
| Topics.PublisherLoopConsumes | src/publisher/threadedPublisher.cpp:39-63 | after any turns exactly as many messages are consumed as turns found one, from the front of all that were queued or arrived, and published is the old one followed by their decodable payloads |
| Topics.EverythingIsPublished | src/publisher/threadedPublisher.cpp:26-66 | as many turns without arrivals as messages are queued empty the queue, and every decodable payload is published |
| Topics.PublisherLoopPolls | src/publisher/threadedPublisher.cpp:47-48 | the loop polls once in every iteration, so its notifications are those of the hysteresis |
| Subscription.PublisherBase.TestForSubscriber | src/publisher/publisherBase.hpp:72-97 | one poll is one step of the hysteresis, notification included; when that step announces and withdraws is stated over all polls by AnnouncedExactlyWhenNew and GoneExactlyAfterTenSeconds |
| Subscription.NotificationsAlternate | src/publisher/publisherBase.hpp:72-97 | over every run of polls notifications alternate starting with true, and their number tells whether there is a subscriber |
| Subscription.GoneOnlyAfterTenSeconds | src/publisher/publisherBase.hpp:76-85 | for readings that are not negative, each false is preceded by a zero-count poll at least ten seconds earlier with only zero-count polls since |
| Subscription.GoneExactlyAfterTenSeconds | src/publisher/publisherBase.hpp:76-85 | with a positive, non-decreasing clock a poll sends false if and only if a subscriber was known and such a window has just reached ten seconds |
| Subscription.WindowHoldsIffPositive | src/publisher/publisherBase.hpp:76-90 | for arbitrary readings, when a poll stores a reading other than zero: in every continuation a false reported by it comes after ten seconds of nothing but zero-count polls if and only if the reading is positive |
| Announcements.AnnouncedExactlyWhenNew | src/publisher/publisherBase.hpp:91-96 | a poll sends true if and only if it counts a subscriber and every earlier true has been followed by a false |
| Announcements.SubscribedIffAnnounced | src/publisher/publisherBase.hpp:72-97 | hasSubscriber holds if and only if some true was sent and no false since |
| Announcements.RecentlyCountedIsAnnounced | src/publisher/publisherBase.hpp:76-90 | with a positive, non-decreasing clock, a publisher that counted somebody less than ten seconds ago is announced |
| Announcements.NotesOfNewPublisher | src/publisher/publisherBase.hpp:72-97 | the notifications of a publisher loop are those its polls announce |
| Subscription.SubscriberManager.Init | src/subscriber/subscriberManager.cpp:23-30 | exactly the permanent channels get a subscriber |
| Subscription.SubscriberManager.Run | src/subscriber/subscriberManager.cpp:67-172 | the loop carries out the queued notifications one by one, clock notifications included |
| Subscription.SubscriptionAgreement | src/subscriber/subscriberManager.cpp:121-149 | in every run, subscriber existence with the pending notifications applied is the publisher's hasSubscriber; the two agree once drained; the already-subscribed and not-subscribed branches are never taken |
| Announcements.WantedIsSubscribed | src/subscriber/subscriberManager.cpp:121-149 | in every run, once no notification is pending, the peer has a subscriber exactly if the publisher announces one: whenever its last poll counted somebody, or one of the last ten seconds did, and never if nobody was ever counted |
| Announcements.WantedIsSubscribedOverLink | src/subscriber/subscriberManager.cpp:67-151 | the same over a real link |
| Announcements.HandledExactly | src/subscriber/subscriberManager.cpp:98-149 | after one message exactly the addressed configured channel changes: subscribed on true, unsubscribed on false unless permanent |
| Announcements.QueueIsHandledInOrder | src/subscriber/subscriberManager.cpp:67-172 | the result of the loop is that of handling the queued messages one by one, oldest first |
| Announcements.LastClockNotificationDecides | src/subscriber/subscriberManager.cpp:98-119 | the clock subscriber runs as the last CLOCK notification says if clock subscription is enabled; otherwise it stays as it was |
| Subscription.PermanentStaysSubscribed | src/subscriber/subscriberManager.cpp:141-144 | a permanent channel stays subscribed in every run |
| Subscription.LinkedStepRefines | src/publisher/publisherBase.hpp:72-97 | every step over a real link shared with other traffic is one step of the abstract system or none |
| Subscription.LinkedAgreement | src/subscriber/subscriberManager.cpp:67-151 | the agreement holds in every run over the link |
| Handshake.ResponseIsLastHeard | include/connect/action/actionServer.hpp:57-77 | after any history the slot holds a response if and only if it is the last one that arrived while the flag was up since the last arming |
| Handshake.FrozenUntilArmed | include/connect/action/actionServer.hpp:57-77 | once a call has returned, no later response changes the slot until it is armed again |
| GoalTrace.AtMostOneTerminal | include/connect/action/actionServer.hpp:376-402 | a trace has at most one terminal call, only in last place, and has one exactly when a result arrived |
| GoalTrace.React | include/connect/action/actionServer.hpp:353-402 | the two nested switches of the loop make the calls, and return, as the reaction says |
| GoalTrace.ReactionIsReference | include/connect/action/actionServer.hpp:353-402 | the reaction makes exactly the calls the reference definition assigns to a message |
| GoalTrace.TraceSnoc | include/connect/action/actionServer.hpp:348-402 | before a result, one more message extends the trace by the loop's reaction to it |
| GoalTrace.TraceStops | include/connect/action/actionServer.hpp:361-402 | messages after the first result change nothing |
| GoalTrace.AcceptedGoal.Arrive | include/connect/action/actionServer.hpp:78-83 | delivery extends the queue and keeps the calls equal to the trace of what was consumed |
| GoalTrace.AcceptedGoal.Process | include/connect/action/actionServer.hpp:348-402 | taking one message keeps the calls equal to the trace; on a result they are the trace of everything that arrived |
| GoalTrace.AcceptedGoal.ExecuteAccepted | include/connect/action/actionServer.hpp:319-404 | under any interleaving of arrivals and stopping, the calls are the trace of what was consumed, plus one abort when stopped while waiting with ROS running; at most one call is terminal, the last, and there is one exactly when the loop finished or made that abort |
| GoalTrace.TerminalCalls | include/connect/action/actionServer.hpp:319-404 | a trace, with or without the abort of a stopped wait, has at most one terminal call, and has one exactly when a result was consumed or the abort was made |
| ActionServer.Server.HandleMessage | include/connect/action/actionServer.hpp:44-84 | delivers to the goal of a known gid, into the right slot or the wait queue; an unknown gid changes nothing |
| ActionServer.Server.Enter | include/connect/action/actionServer.hpp:161-167 | the handle of a new goal enters the table unless its gid is known; then the table keeps its entry |
| ActionServer.Server.RaiseFlag | include/connect/action/actionServer.hpp:169-171 | is the step that forgets any response and raises the flag |
| ActionServer.Server.SendGoal | include/connect/action/actionServer.hpp:173 | is the step that sends the GOAL |
| ActionServer.Server.ReturnGoal | include/connect/action/actionServer.hpp:184-212 | is the step by which sendGoalAndWait returns: accepts exactly on a stored GOAL_ACCEPT, and otherwise gives the handle up, with a CANCEL when nothing is stored |
| ActionServer.Server.RaiseCancel | include/connect/action/actionServer.hpp:220-243 | arms the cancel slot of a known gid; an unknown one changes nothing |
| ActionServer.Server.SendCancel | include/connect/action/actionServer.hpp:245 | is the step that sends CANCEL |
| ActionServer.Server.ReturnCancel | include/connect/action/actionServer.hpp:255-282 | is the step by which sendCancelAndWait returns: accepts exactly on a stored CANCEL_ACCEPT, and gives the handle up exactly when it accepts and no thread waits |
| ActionServer.Server.HandleAccepted | include/connect/action/actionServer.hpp:284-317 | is the step that starts the thread once; a goal that left the table or was started before sends CANCEL |
| ActionServer.Server.ProcessMessage | include/connect/action/actionServer.hpp:348-402 | is the step of executeAccepted that takes the oldest message, and finishes, giving the handle up, exactly on a result |
| ActionServer.Server.ExecuteRemove | include/connect/action/action.hpp:134-161 | every queued handle leaves the table, by gid, each by the step that erases it |
| ActionClient.Client.HandleMessage | include/connect/action/actionClient.hpp:44-82 | a new GOAL creates a goal holding it, a known CANCEL is pushed to its goal, the other two cases answer GOAL_REJECT, anything else changes nothing |
| ActionClient.Client.GoalAccepted | include/connect/action/actionClient.hpp:140-145 | performs the accesses of an accepting answer, GOAL_ACCEPT before the flag is cleared |
| ActionClient.Client.GoalRejected | include/connect/action/actionClient.hpp:152-157 | performs the accesses of a rejecting answer: GOAL_ACCEPT, done, flag |
| ActionClient.Client.CancelAccepted | include/connect/action/actionClient.hpp:117-122 | performs the accesses of an accepted cancel: CANCEL_ACCEPT, done, flag |
| ActionClient.Client.CancelRejected | include/connect/action/actionClient.hpp:129-132 | performs the accesses of a rejected cancel: CANCEL_REJECT, flag |
| ActionClient.Client.Result | include/connect/action/actionClient.hpp:165-193 | performs the accesses of a result, sent before the handle is done |
| ActionClient.Client.Feedback | include/connect/action/actionClient.hpp:201-203 | is the step that sends feedback |
| ActionClient.Client.Iterate | include/connect/action/actionClient.hpp:209-274 | is one undisturbed pass of the goal's thread, access by access, with the messages it sends and the calls it makes |
| ActionClient.PassIsRecorded | include/connect/action/actionClient.hpp:209-320 | the messages and plugin calls of a pass are those the goal's history records |
| ActionClient.Client.Handle | include/connect/action/actionClient.hpp:239-272 | performs the steps for a dequeued message: execute, requeue, absorb, drop or cancel |
| ActionClient.Client.ExecuteGoal | include/connect/action/actionClient.hpp:279-320 | performs the checks of a goal: an undecodable goal, a wrong size or an absent action is answered GOAL_REJECT; only otherwise the local action is asked, with the goal's data |
| ActionClient.Client.Refuse | include/connect/action/actionClient.hpp:285-288 | performs the accesses of a reject path in order |
| ActionClient.Client.ExecuteRemove | include/connect/action/action.hpp:134-161 | every queued handle leaves the table, by gid, each by the step that erases it |
| RemoteGoal.StepKeepsInv | include/connect/action/actionClient.hpp:209-329 | the handle invariant is kept by every interleaving of thread and callback accesses |
| RemoteGoal.RemoteGoalOrdering | include/connect/action/actionClient.hpp:51-82 | in every run the one GOAL is dequeued before any CANCEL, the unexpected branch is unreachable, at most one verdict is sent, cancels reach the action only after it and never two at a time, and every CANCEL is accounted for |
| RemoteGoal.RefusalIsFinal | include/connect/action/actionClient.hpp:284-307 | after a reject path the only verdict is GOAL_REJECT, whatever follows |
| RemoteGoal.RefusedWhen | include/connect/action/actionClient.hpp:282-320 | a reject path is taken exactly on an undecodable goal, a wrong size of a fixed-size type or an absent action; otherwise the action is asked with the goal's data |
| RemoteGoal.CancelIsActedOn | include/connect/action/actionClient.hpp:251-268 | once the verdict is out, the cancel at the head of the queue is handed to the action, or absorbed exactly when another is in progress |
| RemoteGoal.SentIsTrue | include/connect/action/actionClient.hpp:117-203 | a verdict or cancel acceptance sent is true of the handle from then on |
| RemoteHistory.RemoteDataIntegrity | include/connect/action/actionClient.hpp:117-320 | in every run of a remote goal the action is asked with the goal's data, feedback and results are sent as the action gave them, cancels are answered as it decided, and done holds exactly when refused, rejected, cancelled or with a result |
| RemoteHistory.ThreadLeavesWhenDone | include/connect/action/actionClient.hpp:212-234 | the thread leaves exactly when it finds the goal done, and otherwise takes the oldest message |
| RemoteHistory.ExitedIsErased | include/connect/action/action.hpp:134-161 | the handle leaves the table exactly when it is erased after its thread has left |
| GoalLink.LocalStepKeepsInv | include/connect/action/actionServer.hpp:154-404 | on the originating side, flags, outcome, cancel counts and trace stay consistent in every step |
| GoalLink.OutcomeIsFrozen | include/connect/action/actionServer.hpp:189-212 | an outcome of sendGoalAndWait never changes after it was returned |
| GoalLink.StepKeepsInv | include/connect/action/actionClient.hpp:44-82 | across both sides: the GOAL travels first, cancels are conserved, every message under way and every stored response is true, and the stream arrives in order |
| ActionSystem.StepProjects | include/connect/action/action.hpp:121-161 | the shared tables and queues behave as one independent pair per goal id |
| ActionSystem.SystemInv | include/connect/action/action.hpp:121-161 | in every run of the shared system the pair invariant holds for every goal id |
| ActionSystem.CancelConservation | include/connect/action/actionClient.hpp:68-79 | in every run each CANCEL sent is in exactly one place: in transit, held, handed on, absorbed, or bounced off a done and removed handle |
| ActionSystem.NoOrphanedGoal | include/connect/action/actionServer.hpp:195-201 | after a timeout exactly one CANCEL exists and it is in transit, held, handed to the local action, or arrived after the remote handle was done and removed |
| ActionSystem.VerdictsAgree | include/connect/action/actionServer.hpp:203-211 | an accepted goal was handed to the remote action, which answered; a rejected one was refused and never handed on; an accepted cancel was accepted remotely |
| ActionSystem.BouncedCancelsChangeNothing | include/connect/action/actionClient.hpp:68-73 | once a CANCEL bounced, a GOAL_REJECT that arrives for its goal leaves that goal as it is |
| ActionSystem.RefusedGoalIsNeverAccepted | include/connect/action/actionClient.hpp:284-307 | once executeGoal took a reject path, sendGoalAndWait does not return ACCEPT in any continuation of the run |
| ActionSystem.CallsFollowRemote | include/connect/action/actionServer.hpp:319-404 | in every run the calls on the goal are a prefix of the trace of everything the remote side sent, and all of it once the thread has returned or caught up |
| ActionSystem.RejectedGoalIsAccepted | include/connect/action/actionClient.hpp:152-157 | a concrete run in which the remote action rejects, the caller accepts and starts its thread |
| ActionSystem.RejectedGoalNeverEnds | include/connect/action/actionClient.hpp:152-157 | however such a run goes on, no call is made on the goal and its thread never returns |
| ActionSystem.OutcomeDiffersExactlyOnRejection | include/connect/action/actionClient.hpp:140-157 | an answered call tells what the remote action decided if and only if that action did not reject the goal |
| ActionSystem.OpCodesAreClosed | include/connect/action/actionClient.hpp:79-81 | in every run only GOAL and CANCEL travel to a client, only answers, feedback and results to a server, and wait queues hold nothing else |
| ActionHandshake.GoalAcceptedIffHeard | include/connect/action/actionServer.hpp:184-212 | sendGoalAndWait accepts if and only if the last verdict that arrived for its handle while its flag was up is GOAL_ACCEPT |
| ActionHandshake.CancelAcceptedIffHeard | include/connect/action/actionServer.hpp:255-282 | sendCancelAndWait accepts if and only if the last answer that arrived while its flag was up is CANCEL_ACCEPT |
| ActionHandshake.OutcomeSurvives | include/connect/action/actionServer.hpp:57-77 | late, duplicate and wrong-phase responses never alter a returned outcome or the response it came from |
| ActionHandshake.SystemGoalIsHistory | include/connect/action/actionServer.hpp:44-84 | the goals of every system run are such histories |
| ActionHandshake.OutcomeIsLastVerdict | include/connect/action/actionServer.hpp:184-212 | sendGoalAndWait returns as the last verdict heard says, and times out, sending one CANCEL, exactly when none was heard |
| ActionHandshake.RemovedIffGivenUp | include/connect/action/actionServer.hpp:195-211 | a handle is queued for removal if and only if its call ended without an acceptance, a cancel was accepted while no thread waits, a result was taken, or handleAccepted found the thread started |
| ActionHandshake.RemovalInSystem | include/connect/action/actionServer.hpp:154-404 | the same in every run of the action system, together with the count of CANCELs sent |
| ActionHandshake.KeptUnlessGivenUp | include/connect/action/action.hpp:134-161 | a handle that was not given up is in the table |
| ActionHandshake.ErasedForGood | include/connect/action/action.hpp:134-161 | a handle that was given up can be erased, and then its goal is out of the table whatever follows |
| ActionHandshake.CancelsAreAsked | include/connect/action/actionServer.hpp:195-317 | CANCELs are sent exactly by sendCancelAndWait, by a timeout, and by a handleAccepted that finds the goal gone or its thread started |
| ActionHandshake.KeptGoalMissesNothing | include/connect/action/actionServer.hpp:78-83 | in every run a goal that was not given up stays in the table, what arrived and what is on its way is everything the remote side sent for it, and once caught up all its calls are made |
| ActionData.DataCrossesUnchanged | include/connect/action/actionClient.hpp:165-320 | in every run the remote action is asked at most once, with the data the caller sent; its feedback and results are sent unchanged and in order, every cancel gets the answer it gave, and the goal is done exactly when refused, rejected, cancelled or finished |
| ActionData.CallerIsToldByAction | include/connect/action/actionServer.hpp:348-402 | in every run the feedback calls carry a prefix of the feedback the remote action gave, and a terminal call tells the first result it reported |
| ActionData.CallerMissesNothing | include/connect/action/actionServer.hpp:348-402 | a caller that has not given up and has caught up was told of all feedback |
| ActionProgress.CallerCatchesUp | include/connect/action/actionServer.hpp:319-404 | from every state in which the thread of a goal in the table runs, deliveries and its own turns lead to all calls for what the remote side has sent |
| ActionProgress.CancelReachesAction | include/connect/action/actionClient.hpp:209-329 | from every state in which a CANCEL was sent, link and remote side alone lead to a state in which the remote action was asked to cancel or the goal is done, whether the action accepts or rejects |
| ActionProgress.TimeoutReachesAction | include/connect/action/actionServer.hpp:195-201 | so a goal whose call timed out is cancelled at the remote action, or done |
| ActionProgress.RemoteComesToRest | include/connect/action/actionClient.hpp:209-274 | left to itself the remote side of a goal comes to rest: its thread left, or waits with an empty queue |
| Paths.FrameReadsBack | src/serviceAction/serviceActionManager.cpp:135-176 | a sent frame is read by the peer endpoint as the message sent |
| Paths.CarryKeepsFlying | src/websocketConnection/base/websocketConnectionBase.hpp:257-331 | strand, pump, wire, read loop and foreign traffic keep the messages under way and their order |
| ActionWire.RouteDownRefines | src/serviceAction/serviceActionManager.cpp:160-167 | routing hands the oldest message to the action client, or skips one that is not for it |
| ActionWire.RouteUpRefines | src/serviceAction/serviceActionManager.cpp:168-176 | the same towards the action server |
| ActionWire.WireRefinesSystem | src/serviceAction/serviceActionManager.cpp:113-178 | every run over two byte-level connections is a run of the action system |
| ActionWire.NoOrphanOverWire | include/connect/action/actionServer.hpp:195-201 | no goal is orphaned by a timeout over the wire either |
| WireProgress.ActionMessagesArrive | src/serviceAction/serviceActionManager.cpp:113-178 | from every byte-level state the connections and managers alone bring every message under way to its endpoint |
| ServiceServer.OutcomeOf | include/connect/service/serviceServer.hpp:155-192 | sendAndWait succeeds exactly with a decodable response of the expected size, and with its data |
| ServiceServer.Server.HandleMessage | include/connect/service/serviceServer.hpp:44-74 | is the delivery step: only a SERVICE_TO_SERVER for a known gid with its flag up is stored |
| ServiceServer.Server.Enter | include/connect/service/serviceServer.hpp:125-131 | is the step that begins a call; a known gid is not replaced in the table |
| ServiceServer.Server.Raise | include/connect/service/serviceServer.hpp:133-135 | is the step that forgets any response and raises the flag |
| ServiceServer.Server.SendRequest | include/connect/service/serviceServer.hpp:137 | is the step that sends the request |
| ServiceServer.Server.EndWait | include/connect/service/serviceServer.hpp:149-193 | is the step by which sendAndWait returns: data exactly on success; otherwise the handle is given up, with a cancel on timeout |
| ServiceServer.Server.Done | include/connect/service/serviceServer.hpp:201-204 | is the step that closes a returned handle and queues its removal; that the queue then frees the gid is EndedGidIsFree |
| ServiceServer.Server.ExecuteRemove | include/connect/service/service.hpp:133-160 | performs pop and erase steps until the queue is empty |
| ServiceHistory.SentIsHistory | include/connect/service/serviceServer.hpp:137-168 | what a server sends in a run is the data of each call in order and one cancel for each call that timed out |
| ServiceHistory.OverIffEnded | include/connect/service/serviceServer.hpp:160-204 | a call is over if and only if done() was called or its wait returned without a usable response |
| ServiceHistory.EndedCallsAreQueued | include/connect/service/serviceServer.hpp:163-204 | in every run a call that is over and still the table's own is in the removal queue or being removed |
| ServiceHistory.DrainingIsRun | include/connect/service/service.hpp:133-160 | the removal thread empties its queue and touches nothing but the table |
| ServiceHistory.DrainedTableIsInProgress | include/connect/service/service.hpp:147-158 | after that the table holds calls in progress only, and exactly those with fresh gids |
| ServiceHistory.EndedGidIsFree | include/connect/service/serviceServer.hpp:201-204 | when every call with a gid has ended and the removal thread has caught up, the next call with it is linked |
| ServiceServer.ReturnedResponseFits | include/connect/service/serviceServer.hpp:118-193 | in every run a returned handle holds a decodable SERVICE_TO_SERVER of its own gid and size, and was the table's |
| ServiceServer.FrozenUntilDone | include/connect/service/serviceServer.hpp:187-204 | a returned response does not change until done |
| ServiceServer.UnlinkedNeverAnswered | include/connect/service/serviceServer.hpp:130 | a call whose handle is not the table's is never answered, whatever follows |
| ServiceServer.LinkedIsAnswered | include/connect/service/serviceServer.hpp:65-73 | a linked, waiting call stores the next response for its gid |
| ServiceServer.StepKeepsLinked | include/connect/service/service.hpp:147-158 | removal by gid never unlinks a call while all calls are linked |
| ServiceServer.BeginKeepsLinkedIff | include/connect/service/serviceServer.hpp:130 | starting a call keeps all calls linked if and only if no handle with its gid is in the table, which covers the removal queue |
| ServiceServer.FreshCallsAreLinked | include/connect/service/service.hpp:158 | with fresh gids every call in progress is the table's own |
| ServiceServer.ResponseFollowsRequestIff | include/connect/serviceActionHandle.hpp:101-106 | for a call that begins with a fresh gid, against any other side that replies at most once per request: in every continuation it stores nothing before its own request was sent if and only if every earlier request with this gid has been answered |
| ServiceServer.LateResponseIsReturned | include/connect/service/serviceServer.hpp:65-73 | whenever a response with the gid is owed, any such response that fits is returned by the next call in some continuation |
| ServiceServer.AbandonedOwes | include/connect/service/serviceServer.hpp:163-168 | a concrete run, a call that times out and is removed, leaves its gid free and a response owed |
| ServiceClient.Client.HandleRequest | include/connect/service/serviceClient.hpp:54-69 | is the arrival step: a new gid gets a handle, a known one the error reply |
| ServiceClient.Client.HandleCancel | include/connect/service/serviceClient.hpp:70-79 | is the arrival step of a cancel: it joins the queue of a known handle |
| ServiceClient.Client.ExecuteHandle | include/connect/service/serviceClient.hpp:142-185 | is the examining step: an error reply and removal exactly on an undecodable request, a wrong size, an absent service or invalid data; otherwise the request is passed on |
| ServiceClient.Client.Leave | include/connect/service/serviceClient.hpp:197-214 | is the waking step: leaves without cancelling exactly when done, otherwise cancels the request |
| ServiceClient.Client.SendAndDone | include/connect/service/serviceClient.hpp:221-225 | performs the callback's two accesses: reply, then done; what the reply carries is RepliesAreHistory |
| ServiceClient.Client.ExecuteRemove | include/connect/service/service.hpp:133-160 | performs pop and erase steps until the queue is empty |
| ServiceClient.AtMostOneReply | include/connect/service/serviceClient.hpp:142-225 | in every run each reply answers its own request with that request's gid, no request is answered twice, so replies never outnumber requests |
| ServiceClient.UnansweredWasCancelled | include/connect/service/serviceClient.hpp:207-213 | a thread that left without a reply was cancelled while the local service had the request |
| ServiceHistory.RepliesAreHistory | include/connect/service/serviceClient.hpp:54-225 | in every run a request is replied to with some data if and only if the local service's callback provided that data for it, or it was turned away and the data is the configured error |
| ServiceHistory.ReplyContent | include/connect/service/serviceClient.hpp:142-225 | every reply carries the error if its request was turned away - as a duplicate, undecodable, of wrong size, without a service or with invalid data - and otherwise what the callback provided |
| ServiceHistory.TurnedAwayIsNotAsked | include/connect/service/serviceClient.hpp:146-185 | a request that was turned away is never handed to the local service |
| ServiceHistory.LeftIffLeaves | include/connect/service/serviceClient.hpp:142-214 | a request's thread has left if and only if the request was refused, or it was woken by its callback or by a cancel |
| ServiceHistory.RequestIsHistory | include/connect/service/serviceClient.hpp:188-225 | in every run a handle holds as many cancels as were heard for it, is done exactly once its callback ended or its thread gave up, and the local service is told to cancel exactly when the thread wakes for a cancel before that |
| ServiceHistory.RequestsStayTidy | include/connect/service/serviceClient.hpp:54-214 | in every run a request that has left while the table holds it is queued for removal, and one still served keeps its place |
| ServiceHistory.ClearedTableIsServing | include/connect/service/service.hpp:133-160 | once the removal thread has caught up the table names exactly the requests still served |
| ServiceHistory.NextRequestIsServed | include/connect/service/serviceClient.hpp:54-69 | a request whose gid is served no more gets a handle instead of the duplicate's error |
| ServiceSystem.ReturnedResponseIsReply | include/connect/service/serviceServer.hpp:72 | across both sides, in every run and with any reuse of gids, a returned response is a reply the client made to a request that a call with the same gid had sent |
| ServiceContent.ReturnedIsProvided | include/connect/service/serviceServer.hpp:187-193 | across both sides, in every run, what sendAndWait returns is what the local service provided for the data some call with this gid asked with, or the error exactly if that request was turned away |
| ServiceContent.OwnAnswerIsReturned | include/connect/service/serviceServer.hpp:118-193 | with a fresh gid for which nothing was owed it is the answer to the data this very call asked with |
| ServiceSystem.ServerHearsOneReply | include/connect/service/serviceClient.hpp:142-225 | what the server hears in any run is at most one reply per request |
| ServiceSystem.CorrelatedIffNothingOwed | include/connect/serviceActionHandle.hpp:101-106 | across both sides, for a call that begins with a fresh gid: in every continuation whatever response it holds is the client's reply to its own request if and only if every earlier request with this gid has been answered and heard |
| ServiceSystem.DuplicateErrorReachesEarlierCall | include/connect/service/serviceClient.hpp:54-60 | the error reply to a second request with a known gid is stored by the earlier call, which the server's table names |
| ServiceWire.WireRefinesSystem | src/serviceAction/serviceActionManager.cpp:113-159 | every run over two byte-level connections, with any other traffic, is a run of the service system, and the connections hold exactly what it has under way |
| ServiceWire.ReturnedOverWireIsReply | include/connect/service/serviceServer.hpp:65-73 | over the wire, too, a returned response is a reply the client made to a request with the call's gid |
| WireProgress.ServiceMessagesArrive | src/serviceAction/serviceActionManager.cpp:113-159 | from every byte-level state the connections and managers alone bring every request to the client and every reply to the server |
| Routing.Dispatcher.OnRead | src/websocketConnection/base/websocketConnectionBase.hpp:257-268 | a message joins the queue of exactly one consumer |
| Routing.ConsumersByCode | src/websocketConnection/base/websocketConnectionBase.hpp:257-268 | 249 goes to the log, 250 to the subscriber manager, 251 to the service and action manager, every other first byte to the publisher manager |
| Routing.ServiceActionManager.HandleMessage | src/serviceAction/serviceActionManager.cpp:79-83 | the message joins the end of the queue |
| Routing.ServiceActionManager.Run | src/serviceAction/serviceActionManager.cpp:113-178 | the loop dispatches the queue message by message |
| Routing.EndpointsGetTheirOwn | src/serviceAction/serviceActionManager.cpp:142-176 | every configured endpoint gets exactly the messages of its kind and channel, in arrival order |
| Routing.EndpointsStay | src/serviceAction/serviceActionManager.cpp:142-176 | routing adds and removes no endpoint |
| Routing.ExactlyOneEndpoint | src/serviceAction/serviceActionManager.cpp:135-176 | a parsed message is for exactly one kind and channel, a refused one for none |
| Routing.InboxOpCodes | src/serviceAction/serviceActionManager.cpp:144-168 | the op-codes each kind of endpoint can be given |
| Routing.SendReachesPeer | src/serviceAction/serviceActionManager.cpp:24-28 | for every op-code, channel, gid of 1 to 255 bytes, data and profile, a sent frame reaches exactly the peer endpoint and is read there as sent |
| Configuration.Config.ReadTopics | src/connectBase.hpp:427-434 | accepts exactly the lists of valid entries with channels distinct among themselves and from the other side |
| Configuration.Config.ReadEndpoints | src/connectBase.hpp:698-707 | accepts exactly the endpoint lists with channels distinct among themselves and from the servers of their kind |
| Configuration.Config.InitializeParameters | src/connectBase.hpp:969-1076 | true exactly for the configurations of Accepted - definitions, topic and endpoint lists, flags, fragmentation size, authentication - and then holds the configured topics followed by the predefined ones, and the endpoints |
| Configuration.AcceptedExactly | src/connectBase.hpp:969-1076 | a configuration is accepted exactly when all topics of both sides have distinct channels 0 to 248 and no predefined name, endpoints distinct channels per kind, TF and CLOCK go one way at most, fragments have at least eight bytes, and authentication has a positive timeout and a plugin that loads, or omits validation |
| Configuration.TopicsAreConfigured | src/connectBase.hpp:984-1036 | the topics of each side are the configured ones, in order, plus /tf, /tf_static and /clock with their op-codes exactly as the flags say |
| Configuration.AcceptedChannelsAreDistinct | src/connectBase.hpp:510-520 | in an accepted configuration all channels, predefined ones included, are distinct and none is a control op-code |
| Configuration.InitPublishers | src/publisher/publisherManager.cpp:22-37 | the map is built by inserting without replacing |
| Configuration.InsertedIsFirst | src/publisher/publisherManager.cpp:35 | the map holds for each channel the first publisher configured on it |
| Configuration.NoPublisherLostIff | src/publisher/publisherManager.cpp:25-36 | the map loses no publisher if and only if the channels are distinct |
| Configuration.FramesReachTheirPublisher | src/publisher/publisherManager.cpp:100-108 | in an accepted configuration a frame on a publisher's channel is dispatched to the publisher manager and leads to exactly that publisher |
| Configuration.EndpointChannelsAreDistinct | src/connectBase.hpp:698-707 | in an accepted configuration no two servers or clients of a kind share a channel |
| Connections.ConnectionManager.StartConnection | src/connection/connectionManager.hpp:34-36 | a connection is managed exactly when it starts |
| Connections.ConnectionManager.StopConnectionInternal | src/connection/connectionManager.hpp:107-147 | the first occurrence is removed, stopped, joined and closed, then the callback runs; an unmanaged connection changes nothing |
| Connections.ConnectionManager.StopAllConnections | src/connection/connectionManager.hpp:66-71 | terminates with every managed connection closed, in order |
| Connections.StopClosesThatConnection | src/connection/connectionManager.hpp:107-147 | in every run a stop of a managed connection takes out its first occurrence, stops, joins and closes it, then runs the callback once; the others stay in order, or are closed after it in order when the callback shuts down |
| Connections.StopAllClosesInOrder | src/connection/connectionManager.hpp:66-71 | a stop-all closes exactly the managed connections, in their order, and runs no callback |
| Connections.EveryConnectionClosedOnce | src/connection/connectionManager.hpp:107-147 | over every run, with a re-entering callback, each start that succeeded is still managed or was stopped, joined and closed exactly once, in that order |
| Connections.ShutDownClosesAll | src/connection/connectionManager.hpp:66-71 | after a stop-all, or a stop whose callback shuts down, everything started has been closed |
| Connections.UnmanagedStopIsNoOp | src/connection/connectionManager.hpp:107-121 | a stop changes nothing if and only if the connection is not managed |

## Left out

- Stopping: runs are those in which no thread is being stopped, except in `ExecuteAccepted`, whose exits include stopping. The drain loops of the managers' `onStopThread` and the endpoints' `stop` are not modelled.
- Scheduling: the progress theorems say which steps are enabled, that they lead to the end and how many there can be; that the operating system runs every thread is not modelled.
- Sockets, TLS, the WebSocket handshake, DDS, rclcpp and pluginlib: the wire is a FIFO queue and a strand is a queue of handlers.
- Authentication, its timers, `StatusPublisher` and `ClockSubscriber`; the clock subscriber appears only as running or not.
- LZ4 and ZLIB internals: an abstract codec. The worst-case allocation before compressing is folded into building the result, and LZ4's `int` view of sizes above 2^31 is not modelled.
- `toString` of the three messages, logging, QoS, JSON and enum parsing, thread naming, callback groups. An entry's format and creation checks are two booleans of a configuration entry.
- The QoS and compression definitions of the configuration are one boolean: whether reading them succeeded.
- `SharedSubscriber` and `SharedPublisher`: the same steps without a queue.
- Handle removal of actions: a set of handles to erase instead of the queue's order, and erasing does not wait for a thread to end; this allows more runs than the program has.
- Goal ids name one call each, as UUIDs do: a second `sendGoalAndWait` with a used id is not a run of `ActionSystem`. `ActionWire` takes goal ids of 16 bytes, `ServiceWire` writer gids of 1 to 255.
- Methods of the endpoint classes that continue a call take its handle where the previous part of the call left it; that order is the program's own, and the classes do not model two threads inside one method.
- Plugin callbacks for results run one at a time per handle; the local action answers a goal at most once and a cancel at most once per call.
- ROS's side of `done` in `ServiceServer` and of the plugin callback in `ServiceClient`: `done` is called at most once per returned handle, the callback at most once and only after the request was passed on.
- Messages.ServiceActionMessage.Store: allocation of the resized buffer always yields a new one, so iterators that survive a resize in place are not modelled.
- ActionServer.Server.ReturnGoal: the wait itself is not modelled; the step may happen at any time, and no stored response stands for ten seconds having passed.
- ServiceServer.Server.EndWait: likewise for the configured maximum execution time.
