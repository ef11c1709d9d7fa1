# Krossbar, verified

A Dafny model of the hard parts of Krossbar, a local service bus: the hub that brings services
together, the service-name patterns and service files it decides by, the publication of states and
signals, and the connection table and reconnection of the service library.

## The hub

`HubProtocol` is the hub as a transition system. Every client connection has its own task; all tasks
share a registry of names and a table of waiting connection requests. One step is one section under the
lock, or one action of a task outside it. Registering a name takes three steps (insert the name, reply,
drain the waiters) and removing it takes a fourth, much later one (reaping), so every theorem is about
all interleavings of these with the steps of other tasks. Whether a socket pair can be made, whether the
target's writer accepts its end, which executable a process runs, and what the service files hold at that
moment are inputs of a step.

The state carries a log of everything that was read, decided and written. `HubHistory` says, from the
log alone, who owns a name, who waits for it, and when an entry is *justified* by the entries before it:
an offer needs a permission check for that very request, made when its task owned the initiator's name;
a descriptor needs the accepted other end of the same pair just before it; a refusal needs its reason.
`HubTheorems.EveryLogIsLegal` shows that no interleaving ever produces an entry that is not justified;
the consequences are proved about justified logs. The further results:

* `HubRegistration.RegistrationIsAtomic`: one registration in separate sections is as good as one at once.
  Any run with steps of other tasks in the gaps ends in the same tables as the run that replies and drains
  immediately, with the same entries. Each request sees its own entries in the same order, each other
  service is offered the same connections in the same order, and a client without a request in the queue
  is written the same things in the same order. `HubAtomicRuns.EveryRunIsAtomic` closes all registrations of
  a run together, with the same tables, the same entries, and the same order for each request.
* `HubTheorems.EveryMessageIsAnswered`: at every moment each message that was ever read has the answers due
  for it, but for those outstanding: one in a queue, one for a registration not answered yet.
* `HubTheorems.RequestsAreConserved`: each connection request of a registered service is in exactly one
  place, answered for good or standing once in the queue of its own target.
* `HubTheorems.NobodyIsStranded`, `DrainingAnswersEveryWaiter`, `NamesHaveOneOwner`,
  `HubHistory.FirstComeFirstServed`, `HubHistory.NameIsFreedBetween`.

`Hub` holds the tables as fields of a class. Its `Valid()` is everything that is shown of reachable states;
every method that takes a step requires and ensures it, and says what its caller gets from it. The loop over
the waiters is where the program has it.

Three statements one might expect are false of the code. Each has a run that shows it and the exact
condition under which it holds:

* *Each message is answered once.* A wrong endpoint is answered with an error, and then the body is handled
  all the same (`HubExamples.AnsweredTwiceHappens`); a message of a service that is no call is not answered
  for its body (`HubExamples.NoCallHappens`). With nothing outstanding, a message was answered once if and
  only if it named the right endpoint and is not such a message, or named the wrong one and is
  (`HubTheorems.AnsweredOnceIff`).
* *A service that has just registered is left alone until it had time for the reply*, as the comment at
  krossbar-hub/src/client.rs:103-105 intends. A request served during the pause at
  krossbar-hub/src/client.rs:106 is offered at once, past those that wait
  (`HubExamples.OfferInThePauseHappens`). An offer comes before the draining if and only if the run has not
  taken the draining step of the target (`HubReplies.OfferBeforeDrainIff`, `DrainingFollowsOfferIff`), and
  before the reply itself if and only if it has not taken the replying step (`OfferBeforeReplyIff`). The
  second needs a `respond` that suspends before it hands the bytes over
  (`HubExamples.OfferBeforeReplyHappens`); krossbar_rpc decides whether it can, and is not part of this model.
  Waiters that are drained are always offered after the reply (`HubReplies.WaiterOfferedAfterReply`).
* *Every waiting call learns of a final disconnection.* The event is a queue, so one call at most does, and
  the others wait for good (`Reconnect.TwoWaitOneIsTold`, `WaitersAreForgotten`). When nothing more reaches
  the peer and nothing more can happen to the calls, all know of the end if and only if the calls that were
  not through when the connection was given up and those begun afterwards are one at most
  (`Reconnect.EndIsKnownToAllIff`).

## Patterns and permissions

`ServiceNames` gives a pattern its meaning by cutting a name into blocks, and proves the leaf-set matcher
exact for every order in which the hash set is walked. `PatternLaws` proves that patterns compose, that
generalising loses no match, that a pattern without asterisks is string equality, and that two patterns
match the same names if and only if their normal forms are equal, where a run of wildcards keeps its
length and whether it holds `**`. `ServicePermissions` proves both decisions, who may use a name and who may
connect to whom, equal to specifications without loops and early exits.

## States, signals, connections

`SignalEndpoint` and `StateEndpoint` prove what each subscriber hears, for every interleaving: one stretch
of the single sequence of emissions; for states, the value cloned and then a stretch without gaps of
later values. The classes `Signal` and `StateCell` carry the run that led to them, so these results are about
them. `ServiceTable` keeps the client map and the polled handles in step, with the flag and the
event of a connection shared by reference; `Reconnect` accounts for losses, notices and retries, and the
turns of the calls and the handling of a loss are shown to be its steps.

## Model

| member | source | states |
|---|---|---|
| DotSplit.JoinSplit | krossbar-hub/src/service_names.rs:52 | Splitting at dots and joining again gives the string back, and no piece holds a dot. |
| DotSplit.SplitJoin | krossbar-hub/src/service_names.rs:71 | Dot-free pieces survive a join and a split. |
| ServiceNames.FromString | krossbar-hub/src/service_names.rs:25-64 | Parsing returns the well-formed pattern whose printed form is the string, which matches exactly the names that the text cuts into blocks (`*` one section, `**` one or more, anything else itself), or the complaint about the first section that is empty or mixes asterisks. |
| ServiceNames.ParseOutcomeUnique | krossbar-hub/src/service_names.rs:26-64 | A string has one parse outcome, so the contract of the parser fixes its result. |
| ServiceNames.ParseAccepts | krossbar-hub/src/service_names.rs:26-42 | A string parses iff each dot-section is non-empty and has no asterisk, or is `*` or `**`. |
| ServiceNames.ParsePrint | krossbar-hub/src/service_names.rs:51-64 | Parsing a printed pattern gives the pattern back. |
| ServiceNames.PrefixMatchExact | krossbar-hub/src/service_names.rs:77-84 | The recursive prefix matching decides exactly whether a prefix of the name can be cut into blocks fitting a prefix of the pattern. |
| ServiceNames.LeafStep | krossbar-hub/src/service_names.rs:90-117 | After one more section, a position is a leaf iff it is a target of some leaf before, where a leaf is a position whose prefix matched now, or earlier with `**` there. |
| ServiceNames.MatchName | krossbar-hub/src/service_names.rs:66-126 | For any order of the hash set: an asterisk in the name, then an empty section, is an error; otherwise the answer is true iff the name can be cut into blocks fitting the pattern. |
| ServiceNames.TextMeaning | krossbar-hub/src/service_names.rs:25-64 | A parsed pattern matches a name iff the sections of its text, read as they stand, cut the name into blocks. |
| PatternLaws.MatchConcat | krossbar-hub/src/service_names.rs:77-126 | A concatenated pattern matches iff the name can be cut in two for its halves. |
| PatternLaws.GeneraliseKeepsMatches | krossbar-hub/src/service_names.rs:98-116 | Turning literals into wildcards, or `*` into `**`, never loses a match. |
| PatternLaws.LiteralPatternIsEquality | krossbar-hub/src/service_names.rs:111-115 | A pattern without asterisks matches a name iff the two strings are equal. |
| PatternLaws.MatchCongruence | krossbar-hub/src/service_names.rs:77-126 | Replacing a stretch of a pattern by one that matches the same keeps what the whole matches. |
| PatternLaws.RunMatch | krossbar-hub/src/service_names.rs:98-109 | A run of L wildcards matches exactly L sections, or at least L if it holds `**`. |
| PatternLaws.NormalizeKeepsMeaning | krossbar-hub/src/service_names.rs:98-109 | Bringing every wildcard run into normal form changes no answer. |
| PatternLaws.NormalFormDecidesMeaning | krossbar-hub/src/service_names.rs:66-126 | Two patterns match the same names iff their normal forms are equal. |
| ServicePermissions.Permissions.New | krossbar-hub/src/permissions.rs:40-49 | The default directory comes first, then the additional ones in order. |
| ServicePermissions.Permissions.ServiceFileFound | krossbar-hub/src/permissions.rs:245-282 | A service file is read iff the first file that opens, in directory order, can be read and parsed; later ones do not count. |
| ServicePermissions.Permissions.ReadAllowedExecs | krossbar-hub/src/permissions.rs:102-133 | The pattern of executables is returned iff the file has one as a string and it is a glob pattern; the complaint is "not found" iff no file opens. |
| ServicePermissions.Permissions.CheckServiceNameAllowed | krossbar-hub/src/permissions.rs:52-99 | Allowed iff the process is known, the link of its own pid can be read, and the first openable file of the name is an object whose "exec" is a glob pattern that the link matches. |
| ServicePermissions.Permissions.NameDecision | krossbar-hub/src/permissions.rs:52-133 | The decision about a name, read off the files on disk: what the first file that opens says under "exec", and nothing else. |
| ServicePermissions.Permissions.ReadAllowedConnections | krossbar-hub/src/permissions.rs:196-243 | The list is returned iff it is an array of strings that all parse, with the patterns of the entries in order; the complaint is "not found" iff no file opens. |
| ServicePermissions.Permissions.CheckConnectionAllowed | krossbar-hub/src/permissions.rs:149-193 | Allowed iff the client is the monitor or the connect service and these are privileged, or the first openable file of the target lists only valid patterns, the client's name is well formed, and the text of one of them matches it. |
| ServicePermissions.Permissions.ConnectionDecision | krossbar-hub/src/permissions.rs:149-293 | The decision about a connection, read off the files on disk and the texts in them; for the two privileged services no file matters. |
| ServicePermissions.Permissions.CheckServiceExists | krossbar-hub/src/permissions.rs:136-146 | True iff some directory has a file for the service on disk, openable or not. |
| ServicePermissions.Permissions.PermittedHasFile | krossbar-hub/src/permissions.rs:136-193 | A permitted client that is not privileged proves that the target has a service file. |
| ServicePermissions.Permissions.OnlyFirstFileCounts | krossbar-hub/src/permissions.rs:245-252 | Two file systems that agree on the first openable file of the target give the same answer. |
| ServicePermissions.ListOrderIrrelevant | krossbar-hub/src/permissions.rs:163-180 | The order and the repetition of entries do not matter. |
| ServicePermissions.ListGrowth | krossbar-hub/src/permissions.rs:217-240 | More valid entries never take an admission away; one invalid entry takes all of them away. |
| HubServer.Hub.AcceptClient | krossbar-hub/src/hub.rs:76-105 | Keeps the invariant; the new task has read nothing and owns no name. |
| HubServer.Hub.ClientGone | krossbar-hub/src/client.rs:92 | Keeps the invariant; the task is finished iff it ever registered, and then it still owns the one name it registered, else it is gone and owns none. |
| HubServer.Hub.HandleAuthRequest | krossbar-hub/src/hub.rs:244-281 | A taken name is refused before permissions are looked at; a free one is inserted with the writer of its task iff the service files let the executable use it. |
| HubServer.Hub.AuthorizeClient | krossbar-hub/src/hub.rs:138-231 | Keeps the invariant, for every body and with the wrong endpoint falling through: the task owns the name iff it was free and permitted, else it has read its last message. |
| HubServer.SendingAnswersOnce | krossbar-hub/src/client.rs:120-151 | Sending descriptors answers the request once and nobody else; it hands a descriptor out iff the target took the other end of the same pair just before; it is justified whenever the connection may be offered. |
| HubServer.Hub.ResolvePendingConnections | krossbar-hub/src/client.rs:98-118 | The whole queue of the name is removed and served in order, one send for each waiter. |
| HubServer.Hub.ReplyToRegistration | krossbar-hub/src/hub.rs:164-166 | Keeps the invariant; the registration was not answered before and is now. |
| HubServer.Hub.DrainWaiters | krossbar-hub/src/hub.rs:168-176 | Keeps the invariant; afterwards the task serves and every request ever read for its name from a registered service has all its answers. |
| HubServer.Hub.HandleConnectionRequest | krossbar-hub/src/client.rs:154-214 | Check, then offer, queue or refuse, with the files read once for the check and once more for the look; the queue of the target grows by this request exactly when it waits. |
| HubServer.Hub.ServeClient | krossbar-hub/src/client.rs:33-95 | Keeps the invariant, for every body; a connection request has its answers or lacks the last one and stands once in the queue, any other message is the last one the task reads. |
| HubServer.Hub.ReapTask | krossbar-hub/src/hub.rs:107-118 | Keeps the invariant; frees exactly the name the task owned, for which nobody waits, and every other name keeps its owner. |
| HubHistory.OfferWasAuthorised | krossbar-hub/src/client.rs:166-175 | Every offer goes to the owner of the target's name and was preceded by a positive check of the same request, asked for by a task that owned the initiator's name, however long it waited. |
| HubHistory.DescriptorFollowsOffer | krossbar-hub/src/client.rs:126-142 | A descriptor is answered only right after the other end of the same pair was accepted by the writer of the target asked for. |
| HubHistory.PairServesOneRequest | krossbar-hub/src/client.rs:126-142 | A pair is handed to one initiator at most. |
| HubHistory.FirstComeFirstServed | krossbar-hub/src/client.rs:110-117 | Everyone queued for a target, in order, is everyone served from its queue followed by everyone waiting. |
| HubHistory.QueuedForAReason | krossbar-hub/src/client.rs:187-210 | A request is queued only if it offers to wait, is permitted, its target is offline and has a service file. |
| HubHistory.RegisteredForAReason | krossbar-hub/src/hub.rs:252-279 | A name is registered only by a task that had none, when nobody owns it, and if the service files let the executable use it. |
| HubHistory.NameIsFreedBetween | krossbar-hub/src/hub.rs:107-114 | Between two registrations of one name the first owner was reaped. |
| HubHistory.WaitIsOnlyRefusedToPrivileged | krossbar-hub/src/client.rs:187-200 | A request that offers to wait is refused as not found only if the target has no file when it is looked for; with files that do not change, only to a privileged initiator. |
| HubSafety.StepKeepsInv | krossbar-hub/src/hub.rs:244-281 | Every step keeps the tables equal to what the log says and the log legal. |
| HubAccounting.StepKeepsAccount | krossbar-hub/src/client.rs:33-214 | Every step keeps, for every message read, answers given plus answers outstanding equal to the answers due. |
| HubAccounting.DrainedCount | krossbar-hub/src/client.rs:110-117 | Draining answers each waiter once for each place it has, and nobody else. |
| HubTasks.StepKeepsTasks | krossbar-hub/src/client.rs:33-95 | Every connection request read from a registered service is taken up; a task reads nothing after its end. |
| HubTheorems.StepKeepsHubInv | krossbar-hub/src/hub.rs:53-118 | Every step that is possible keeps the whole invariant of reachable states. |
| HubTheorems.EveryLogIsLegal | krossbar-hub/src/client.rs:98-214 | In every run every entry of the log is justified by those before it. |
| HubTheorems.NamesHaveOneOwner | krossbar-hub/src/hub.rs:252-279 | The registry's names are exactly those of registered tasks not yet reaped, each with one owner, whose writer is stored. |
| HubTheorems.ReapingRemovesOwnEntry | krossbar-hub/src/hub.rs:107-114 | Reaping removes the entry of that task and no other. |
| HubTheorems.NobodyIsStranded | krossbar-hub/src/client.rs:177-209 | Requests wait for a registered service only until that service has drained its queue. |
| HubTheorems.NothingIsReadAfterTheEnd | krossbar-hub/src/client.rs:64-92 | After a message that is no call, a refused body, a refused registration or its reaping, a task reads nothing. |
| HubTheorems.EveryMessageCanBeRead | krossbar-hub/src/client.rs:33-95 | Whatever the files hold and whether a socket pair can be made, there is a step for any new message of a task that reads. |
| HubTheorems.EveryTaskCanEnd | krossbar-hub/src/hub.rs:107-118 | From every moment of every run, steps of a task alone lead to its end, after which it owns no name. |
| HubTheorems.EveryMessageIsAnswered | krossbar-hub/src/client.rs:33-95 | In every run each message read, whatever its body and endpoint, has the answers due for it but for those outstanding in its queue or for its registration. |
| HubTheorems.RequestsAreConserved | krossbar-hub/src/client.rs:110-213 | Each connection request of a registered service is answered for good and in no queue, or owed its last answer and once in the queue of its target. |
| HubTheorems.AnsweredOnceIff | krossbar-hub/src/client.rs:35-92 | With nothing outstanding, any message read was answered once iff its endpoint was right and it is not a message of a service that is no call, or wrong and it is one. |
| HubTheorems.DrainingAnswersEveryWaiter | krossbar-hub/src/client.rs:98-118 | When a registration finishes draining, every request ever read for that name has all its answers, for ever. |
| HubTheorems.PermittedWaitIsQueued | krossbar-hub/src/client.rs:187-210 | A permitted request that offers to wait for an offline target is queued last iff the target has a file when it is looked for, else refused as not found; with files that do not change, every client that is not privileged is queued. |
| HubReplies.RepliedIffScheduled | krossbar-hub/src/hub.rs:164-166 | In every run a registration is answered iff the run takes the replying step of the task. |
| HubReplies.OfferBeforeReplyIff | krossbar-hub/src/client.rs:177-186 | A request served at once is offered before its target has its registration reply iff the run has not taken the replying step of the target. |
| HubReplies.OfferBeforeDrainIff | krossbar-hub/src/client.rs:103-117 | It is offered in the pause after the reply, or before, iff the run has not drained the waiters of the target; once it has, the offer overtakes nobody. |
| HubReplies.DrainingFollowsOfferIff | krossbar-hub/src/client.rs:103-117 | In a run that goes on until the target serves, the draining follows the offer iff it did not come before. |
| HubReplies.WaiterOfferedAfterReply | krossbar-hub/src/hub.rs:164-176 | A drained waiter is offered to its target after the registration of the target was answered. |
| HubExamples.AnsweredTwiceHappens | krossbar-hub/src/client.rs:37-46 | A run in which a registered service asks at the wrong endpoint and is answered twice. |
| HubExamples.NoCallHappens | krossbar-hub/src/client.rs:86-88 | Runs in which a message of a service that is no call gets no answer at the right endpoint, and one at the wrong endpoint. |
| HubExamples.OfferInThePauseHappens | krossbar-hub/src/client.rs:106 | A run in which a service is offered a connection in the pause before its queue is drained, past a request that waits. |
| HubExamples.OfferBeforeReplyHappens | krossbar-hub/src/hub.rs:166 | Provided that `respond` can suspend before it hands the reply over: a run in which a service is offered a connection before its reply. |
| HubRegistration.Swap | krossbar-hub/src/client.rs:108-117 | Replying or draining can be moved before a step of another task, with the same tables and the same entries. |
| HubRegistration.RegistrationIsAtomic | krossbar-hub/src/hub.rs:164-176 | Any run with gaps in one registration has a counterpart without them: same tables, same entries, same order for each request, for the offers to each other service, and for all that is written to each other client with no request in the queue. |
| HubAtomicRuns.EveryRunIsAtomic | krossbar-hub/src/hub.rs:164-176 | Any run that leaves no registration half done has a counterpart with every registration at once: same tables, same entries, same order for each request. |
| Broadcast.Send | krossbar-bus-lib/src/endpoints/signal.rs:56-68 | The entries kept by a broadcast are those whose connection took the value, in their order. |
| SignalEndpoint.SurvivorsKeepTheirOrder | krossbar-bus-lib/src/endpoints/signal.rs:45-70 | The list holds exactly the subscribers without a failure, in the order they came. |
| SignalEndpoint.HearsEverything | krossbar-bus-lib/src/endpoints/signal.rs:20-70 | Without a failure a subscriber hears exactly what is emitted after its subscription. |
| SignalEndpoint.HearsOneStretch | krossbar-bus-lib/src/endpoints/signal.rs:20-70 | With a failure, what it heard is the stretch of the sequence of all emissions from its subscription to before the first failed one. |
| SignalEndpoint.Signal.Subscribe | krossbar-bus-lib/src/endpoints/signal.rs:20-22 | A new subscriber comes last, behind those without a failure. |
| SignalEndpoint.Signal.EmitValue | krossbar-bus-lib/src/endpoints/signal.rs:42-72 | A value that encodes is the next of the single sequence, heard once by each subscriber that can be reached, and the list is the subscribers without a failure in their order; one that does not changes nothing. |
| StateEndpoint.WritesAndSends | krossbar-bus-lib/src/endpoints/state.rs:79-99 | Writes and broadcasts alternate, and the cell holds the last value written. |
| StateEndpoint.StateDelivery | krossbar-bus-lib/src/endpoints/state.rs:26-99 | A subscriber hears value i and then values j to k without a gap, with i < j; j is i+1 iff no broadcast was completed between cloning and pushing; nothing is missed after the push. |
| StateEndpoint.StateDeliveryUntilFailure | krossbar-bus-lib/src/endpoints/state.rs:84-97 | The same up to the first failed broadcast, after which nothing is heard. |
| StateEndpoint.StateCell.CloneValue | krossbar-bus-lib/src/endpoints/state.rs:27 | A subscription clones the last value published, whose broadcast is over. |
| StateEndpoint.StateCell.RespondWith | krossbar-bus-lib/src/endpoints/state.rs:29 | The cloned value is all the subscriber has heard, and it may be pushed iff it took the answer. |
| StateEndpoint.StateCell.PushClient | krossbar-bus-lib/src/endpoints/state.rs:30 | A subscriber not on the list yet is put last, and follows from the next broadcast on. |
| StateEndpoint.StateCell.WriteValue | krossbar-bus-lib/src/endpoints/state.rs:74-80 | A value that encodes gets the next number; one that does not changes nothing. |
| StateEndpoint.StateCell.SendValue | krossbar-bus-lib/src/endpoints/state.rs:82-99 | Every subscriber on the list that can be reached hears the value once and stays; nobody else hears it or stays. |
| EventQueue.Event.Wait | krossbar-bus-lib/src/event.rs:21-24 | A waiter takes the oldest value nobody took, or goes on waiting. |
| Reconnect.OneNoticePerLoss | krossbar-bus-lib/src/client.rs:199-242 | One notice for each loss: reconnections first, then at most one disconnection, with which polling ends. |
| Reconnect.IncomingIsNotRegained | krossbar-bus-lib/src/client.rs:233-240 | A connection that was never made outgoing ends with its first loss. |
| Reconnect.OutgoingIsGivenUpIff | krossbar-bus-lib/src/client.rs:204-281 | An outgoing connection is given up iff at some loss the hub refuses it, or the hub itself was lost and does not come back. |
| Reconnect.HubConnect | krossbar-bus-lib/src/client.rs:245-281 | Asking again whenever the hub is back succeeds iff the hub hands out a descriptor. |
| Reconnect.RetriesAreBounded | krossbar-bus-lib/src/client.rs:56-121 | All clones together never try again more often than the connection came back. |
| Reconnect.WritesAreAccounted | krossbar-bus-lib/src/client.rs:56-121 | Writes made and about to be made are the calls begun plus the retries; every waking takes one notice. |
| Reconnect.WritesAreBounded | krossbar-bus-lib/src/client.rs:56-121 | All clones together write at most once for each call and once for each return of the connection. |
| Reconnect.SentIffWritten | krossbar-bus-lib/src/client.rs:61-62 | A call is through iff one of its writes reached the peer. |
| Reconnect.WokenCall | krossbar-bus-lib/src/client.rs:70-75 | A woken call takes the oldest notice; it may write again iff the connection came back, and fails iff it was lost for good. |
| Reconnect.OutgoingIffAsked | krossbar-bus-lib/src/client.rs:49-51 | A connection is outgoing iff it was from the beginning or was made so. |
| Reconnect.OnlyOneIsToldOfTheEnd | krossbar-bus-lib/src/client.rs:224-231 | One waiter at most is told of the final loss, and by then every reconnection was used for a retry. |
| Reconnect.WaitersAreForgotten | krossbar-bus-lib/src/event.rs:16-24 | Whoever still waits when another was told of the end is never woken. |
| Reconnect.AllKnowIffOneIsOpen | krossbar-bus-lib/src/event.rs:16-24 | When all notices of a lost connection are taken, every call is through or was told iff exactly one is not through. |
| Reconnect.EndIsKnownToAllIff | krossbar-bus-lib/src/client.rs:224-240 | When no write succeeds after the loss and nothing more can happen to the calls, every call is through or was told iff the calls not through at the loss plus those begun afterwards are one at most. |
| Reconnect.TwoWaitOneIsTold | krossbar-bus-lib/src/event.rs:16-24 | A run with two waiting calls and one final loss: one is told, the other waits for good. |
| Reconnect.Turn | krossbar-bus-lib/src/client.rs:56-77 | One turn of a call is its step of the link: a write that goes through ends it, one that fails makes it wait; a waiting call takes the oldest notice and tries again or fails, or finds none and goes on waiting. |
| ServiceTable.AgreementOfNames | krossbar-bus-lib/src/service.rs:46-48 | In an agreeing table the polled names have no duplicates and are the keys of the map. |
| ServiceTable.Service.Connect | krossbar-bus-lib/src/service.rs:89-124 | A known name only becomes outgoing; a new one is added to both sides with new shared cells iff the hub hands out a descriptor; a refusal changes nothing; if the own polling returns first, the table is as that turn leaves it, and it panics; no flag goes back to false. |
| ServiceTable.Service.Poll | krossbar-bus-lib/src/service.rs:189-234 | One turn of polling keeps the table in agreement; a message polls its handle again, a loss keeps the connection iff it was outgoing and the hub hands out a descriptor, a new connection enters both sides unless it is known or the monitor's; no flag changes. |
| ServiceTable.Service.HandleNewConnection | krossbar-bus-lib/src/service.rs:236-274 | An incoming connection is added to both sides with new cells, unless its name is known, or it is "krossbar.monitor" and the monitor feature is on: then nothing changes. |
| ServiceTable.Service.PollMessage | krossbar-bus-lib/src/service.rs:195-202 | After a message the same handle is polled again and the table agrees. |
| ServiceTable.Service.PollLost | krossbar-bus-lib/src/service.rs:204-207 | Handling a loss is the losing step of the link: a regained connection stays in the table, a lost one leaves both sides, with one notice emitted either way. |

## Left out

- HubServer.Hub.HandleAuthRequest: which executables the links of processes lead to, and what a glob pattern matches, are inputs; a path that is not valid UTF-8 is not covered.
- HubServer.Hub.AuthorizeClient: the answer to a rejected registration is written in the step that rejects it, not after the lock is released (krossbar-hub/src/hub.rs:178-181).
- HubServer.Hub.HandleConnectionRequest: the files of all directories are one snapshot for the permission check and another for the existence check; files that change within one of them are not covered.
- HubTheorems.EveryRequestIsTakenUp: reading a message and its section under the lock are one step, at the time of the section; between the two a task reads nothing and touches nothing that is shared, so a request that was read and whose task waits for the lock is not a state of its own.
- HubServer.Hub.ServeClient: the endless loops of the hub and of its clients are runs of steps, not loops.
- Broadcast.Send: a broadcast is one section, because it holds the list lock; its single sends are not steps of their own.
- The hub's own reconnection in the service library (krossbar-bus-lib/src/service.rs:216-226), which emits into an event like the one modelled.
- Sockets, descriptors, JSON and BSON decoding, how a service name becomes a file path: abstract values and outcomes.
- The `krossbar_rpc` and `krossbar_state_machine` crates are not part of this model; answers on one writer are taken to arrive in the order they are given.
- Progress, fairness and deadlock, beyond `HubTheorems.EveryTaskCanEnd` (an end is always possible, not that it comes); futures dropped half way.
- `State::get`, which reads the local value and not the published one.
- Endpoint routing, timers, logging, command lines, the monitor and connect tools.
