# RSB: a verified model of its hard parts

RSB is a publish/subscribe middleware: informers publish events on hierarchical scopes,
listeners receive what is published on or below theirs, transports carry events between
processes, and a request/reply layer is built from two events. This project models the
parts of the C++ implementation that carry invariants across several functions, and proves
those invariants for all inputs, all runs and all interleavings.

| files | part of RSB |
|---|---|
| `Scope.dfy` | scope strings: parser, printer, hierarchy |
| `Routing.dfy`, `InprocessBus.dfy`, `ScopeDispatcher.dfy`, `Routers.dfy` | the cached routing index, the cache-free dispatcher, and both side by side |
| `Bytes.dfy`, `Sequences.dfy`, `Framing.dfy`, `SocketBus.dfy` | length-prefixed byte stream, connections, the two buses |
| `StarProtocol.dfy`, `StarRefinement.dfy`, `AcceptHandshake.dfy` | the socket bus as a protocol of many processes; the send loops of the bus classes, at the server and at a client, as its steps; accept loop and shutdown |
| `Ordering.dfy`, `Events.dfy`, `Serialization.dfy`, `Relay.dfy` | events, their wire form, and a server that relays them |
| `Informer.dfy`, `RequestReply.dfy`, `Methods.dfy` | publishing, the request/reply protocol, its two ends as objects |
| `BitLengths.dfy`, `Md5Spec.dfy`, `Md5Hasher.dfy`, `Md5Vectors.dfy` | the incremental MD5 hasher against RFC 1321, and known digests |
| `Converters.dfy` | choosing converters for both directions from one repository |

`dafny verify dfyconfig.toml` checks everything.

Code that changes objects or buffers is modelled by classes and methods with loops; each
method is proved against a function or predicate, and the laws are proved about those. The
protocols are state machines over their atomic steps: the star, the accept handshake, the
routers and request/reply quantify over every run.

What the environment decides is a parameter: which weak pointers can no longer be locked (the
set `expired`), where a socket write fails (`fault`), how a read ends (`Outcome`), what the
protocol buffer parser makes of a message (`Parser`), what the clock says and what lies in memory behind a
sender id that is too short (`now`, `Surroundings`), what a callback or a converter does, whether a
connector throws, and in which order messages arrive. Ghost parameters and ghost fields
(`registered`, `sent`, `delivered`, `written`, `published`, `issued`) record history for the
statements only.

## Where the code does not do what one would expect

These are proved, with the exact condition:

- **Removing a sink from the in-process bus.** The scan of an entry stops at the first weak
  pointer that is dangling *or* is the sink. A sink that is removed while alive stays in every
  entry in which a dangling pointer precedes it, and is still called. Removal is exact if and
  only if no such pointer precedes it (`InprocessBus.RemoveKeepsExactIff`); over whole histories
  the index is exact if and only if every removal was (`Routers.HistoryExactIff`), and one sink
  is served exactly as due if and only if its own removals were, whatever happens to others
  (`Routers.SinkDueIff`). `Routers.LingeringSink` shows the failure; a sink left behind and added
  again is called twice for one event (`Routers.DoubledSink`). A sink that expired and is then removed leaves
  nothing behind (`InprocessBus.ExpiredRemovalIsExact`). The dispatcher is always exact.
- **Bit length of MD5.** Two of the carry tests compare with an operand that was not an addend.
  The length words agree with section 3.2 of RFC 1321 if and only if `BitLengths.NoFalseCarry`
  holds, which contains every length below 2^29 bytes; at 2^29 the high word is 2 instead of 1.
  Some larger lengths are right again.
- **The busy-wait of the server's shutdown.** If the cancel falls between the accept handler's
  test of the flag and its re-arming, the wait ends only when another client connects: no
  continuation by the two threads alone clears the flag. Otherwise every continuation clears it
  within four steps (`AcceptHandshake.WaitEndsIff`); `StrandedReachable` is a run into the
  endless wait.
- **Frames of 2^32 bytes and more** have their length truncated; reading gives back what was
  sent if and only if no message is that long (`Framing.RoundTripIff`).
- **Zero timestamps** mean "now" to the integer setters, so a notification with a zero time
  changes when it is relayed (`Relay.RelayIff`, `Relay.SentUnchangedIff`). The setters that take
  dates do store zeros: for the epoch, and as the user time left behind by a date before it
  (`Relay.SendEpoch`).
- **Converter symmetry** fails for a data type whose wire schema is explicitly selected to
  another data type (`Converters.SameConverterBothWaysIff`, `Converters.AsymmetricSelection`).
- **Request ids wrap around** after 2^32 publishes. The map of pending calls does not overwrite,
  so a new call whose id is still pending is never answered (`RequestReply.CallWaitedForIff`,
  `ForgottenForever`, `WrappedCallIsForgotten`).
- **The client looks only at the smallest cause of a reply.** Delivering an answer to a pending
  call completes the call with it if and only if the request is the smallest cause of the reply
  (`RequestReply.AnswerCompletesIff`), and an answer that completes a call is to that call under
  the same condition (`RequestReply.OwnAnswerIff`). It always holds for typed callbacks, not for
  callbacks that return whole events: `RequestReply.MistakenAnswer` is a run in which a future
  gets the answer to another request.
- **A message with an illegal scope** makes the conversion to an event throw out of the read
  handler, and the service thread runs the handlers without catching
  (`src/rsb/transport/AsioServiceContext.cpp:36-39`). A reader throws if and only if the first
  message that does not become an event parses, so that its scope is outside the grammar
  (`SocketBus.Feed`); `SocketBus.IllegalScopeStops` is such a stream.
- **Scope strings.** The comment at `src/rsb/Scope.cpp:44-45` gives a grammar with a mandatory
  final slash; the code also accepts strings without it and adds the slash. The model follows the
  code.

## Model

| member | source | states |
|---|---|---|
| Scopes.VerifyAndSplit | src/rsb/Scope.cpp:53-114 | accepts exactly the strings of the grammar; the result is the one component list the string denotes with its normalised string; a rejected string gets the error of its first offence, scanning from the left |
| Scopes.DenotesUnique | src/rsb/Scope.cpp:53-114 | no string denotes two component lists, with or without the final slash |
| Scopes.LegalAlphabet | src/rsb/Scope.cpp:91-93 | the legal characters are exactly the 64 of the alphabet, written out |
| Scopes.PrintAppend | src/rsb/Scope.cpp:190-206 | the root prints as a slash, and each further component adds itself and a slash |
| Scopes.PrintNeverOffends | src/rsb/Scope.cpp:190-206 | a printed scope has no empty component and no illegal character at any position |
| Scopes.PrintInjective | src/rsb/Scope.cpp:190-206 | different component lists print differently |
| Scopes.PrefixViews | src/rsb/Scope.cpp:160-188 | one printed scope is a prefix of another exactly when its component list is |
| Scopes.UpdateStringCache | src/rsb/Scope.cpp:190-206 | the cursor stays inside the presized buffer, fills it exactly, and the result is the printed form |
| Scopes.Concat | src/rsb/Scope.cpp:147-158 | the result is the concatenation of the components, its string the two strings without the child's leading separator |
| Scopes.ConcatenationLaws | src/rsb/Scope.cpp:147-158 | associative with the root as identity; the result is below its first operand, and equal to it only for the root |
| Scopes.IsSubScopeOf | src/rsb/Scope.cpp:160-173 | true exactly when the other scope is above, equivalently its string is a proper prefix |
| Scopes.IsSuperScopeOf | src/rsb/Scope.cpp:175-188 | the mirror image of the sub-scope test |
| Scopes.SuperScopes | src/rsb/Scope.cpp:208-235 | all proper prefixes, each once, from the root downwards, plus the scope itself if asked for; nothing else |
| Scopes.AncestorsAreAll | src/rsb/Scope.cpp:208-235 | the ancestors by length are all super-scopes, each string extending the one before |
| Scopes.EqualityViews | src/rsb/Scope.cpp:237-239 | comparing strings is comparing components |
| Scopes.HierarchyViews | src/rsb/Scope.cpp:160-188 | the hierarchy on components is the prefix order on strings |
| Routing.RuleOnStrings | src/rsb/transport/inprocess/Bus.cpp:162-207 | the rule of routing in terms of strings: a live registered sink is called once if its scope string begins the one of the event, and no other |
| InprocessBus.ExactEntries | src/rsb/transport/inprocess/Bus.cpp:62-148 | without expired sinks an entry is, as a multiset, exactly the registered sinks at or above its scope |
| InprocessBus.FillKeepsExact | src/rsb/transport/inprocess/Bus.cpp:164-196 | an entry rebuilt from the union of the entries above is exact |
| InprocessBus.AddKeepsExact | src/rsb/transport/inprocess/Bus.cpp:62-104 | adding a sink keeps every entry exact, including a newly created one |
| InprocessBus.RemoveKeepsExactIff | src/rsb/transport/inprocess/Bus.cpp:106-148 | removal keeps the index exact if and only if no expired pointer precedes the live sink in an entry |
| InprocessBus.RemoveKeepsDueIff | src/rsb/transport/inprocess/Bus.cpp:106-148 | the removed sink is gone from every entry if and only if nothing expired precedes it, whatever the index holds of other sinks |
| InprocessBus.RemoveKeepsOthers | src/rsb/transport/inprocess/Bus.cpp:106-148 | whatever happens to the removed sink, every other live sink keeps its entries, also when empty scopes are dropped |
| InprocessBus.RemovedEntries | src/rsb/transport/inprocess/Bus.cpp:106-148 | no empty entry is left; an entry that was hit loses exactly its first expired-or-equal element, all others are as they were |
| InprocessBus.RemoveFirstTakesOne | src/rsb/transport/inprocess/Bus.cpp:120-131 | nothing but the first element that has expired or is the sink is taken out of a list |
| InprocessBus.ExpiredRemovalIsExact | src/rsb/transport/inprocess/Bus.cpp:120-131 | one sink expired and then removed: the index is exact again and no entry keeps a dangling pointer to it |
| InprocessBus.DeliveryIsExact | src/rsb/transport/inprocess/Bus.cpp:162-207 | cached delivery calls each live registered sink at or above the scope once and no other |
| InprocessBus.FillIsUnobservable | src/rsb/transport/inprocess/Bus.cpp:164-196 | filling the cache for one scope changes no later delivery on any scope |
| InprocessBus.Bus.constructor | src/rsb/transport/inprocess/Bus.cpp:43-45 | an empty index is exact for no sinks |
| InprocessBus.Bus.FillEntry | src/rsb/transport/inprocess/Bus.cpp:164-196 | a missing entry becomes the duplicate-free union of the entries at or above it |
| InprocessBus.Bus.AddSink | src/rsb/transport/inprocess/Bus.cpp:62-104 | on any index: creates the sink's entry if missing, appends the sink there and to every sub-scope; an exact index stays exact |
| InprocessBus.Bus.AppendToEntries | src/rsb/transport/inprocess/Bus.cpp:96-103 | the sink is the new last element of exactly the entries at or below its scope |
| InprocessBus.Bus.RemoveSink | src/rsb/transport/inprocess/Bus.cpp:106-148 | each entry loses its first expired-or-equal element, entries that became empty are deleted |
| InprocessBus.EraseFirst | src/rsb/transport/inprocess/Bus.cpp:120-131 | the scan erases the first element that is expired or the sink |
| InprocessBus.Bus.Handle | src/rsb/transport/inprocess/Bus.cpp:150-207 | on any index: fills the entry if missing and calls its live sinks; on an exact one, each live registered sink at or above the scope once and no other |
| ScopeDispatching.InsertKeepsStored | src/rsb/eventprocessing/ScopeDispatcher.h:79-81 | adding keeps the store right: each live registered sink once under its own scope, no empty list |
| ScopeDispatching.EraseKeepsStored | src/rsb/eventprocessing/ScopeDispatcher.h:159-180 | removal keeps the store right for every sink, expired or not, and never leaves an empty list |
| ScopeDispatching.LiveRemovalSucceeds | src/rsb/eventprocessing/ScopeDispatcher.h:159-180 | removing a live registered sink never meets the missing-scope error and leaves no copy |
| ScopeDispatching.WalkIsExact | src/rsb/eventprocessing/ScopeDispatcher.h:182-199 | walking the super-scopes calls each live registered sink at or above the scope once and no other |
| ScopeDispatching.DispatchOrder | src/rsb/eventprocessing/ScopeDispatcher.h:182-199 | the live sinks of a super-scope are called in stored order, after those of all shorter and before those of all longer super-scopes |
| ScopeDispatching.WeakScopeDispatcher.AddSink | src/rsb/eventprocessing/ScopeDispatcher.h:79-81 | the sink becomes the last of the list of its scope |
| ScopeDispatching.WeakScopeDispatcher.RemoveSink | src/rsb/eventprocessing/ScopeDispatcher.h:159-180 | fails exactly for an unknown scope; otherwise drops the sink and all dangling pointers, and the key with its last element |
| ScopeDispatching.WeakScopeDispatcher.SweepList | src/rsb/eventprocessing/ScopeDispatcher.h:165-176 | erasing while iterating drops all dangling pointers and every copy of the sink, keeping the order of the rest |
| ScopeDispatching.WeakScopeDispatcher.MapSinks | src/rsb/eventprocessing/ScopeDispatcher.h:182-199 | calls the live sinks of the super-scopes, root first, each list in order |
| Routers.StepKeepsExactIff | src/rsb/transport/inprocess/Bus.cpp:62-207 | one add, remove, event or expiry keeps the index exact if and only if it is not an obstructed removal |
| Routers.HistoryExactIff | src/rsb/transport/inprocess/Bus.cpp:62-207 | the index is exact throughout a history if and only if every removal in it is clean |
| Routers.HistoryCorrect | src/rsb/transport/inprocess/Bus.cpp:62-207 | after every history with clean removals both routers hold exactly what they should |
| Routers.StepKeepsDueIff | src/rsb/transport/inprocess/Bus.cpp:62-207 | one operation keeps one sink served as due if and only if it is not that sink's own obstructed removal, whatever the index holds of other sinks |
| Routers.SinkDueIff | src/rsb/transport/inprocess/Bus.cpp:62-207 | the entries hold a sink exactly as due throughout a history if and only if its own removals are clean, however many removals of other sinks are not |
| Routers.SinkCalledAsDue | src/rsb/transport/inprocess/Bus.cpp:162-207 | such a sink is called for every event of every scope as often as it is due |
| Routers.RoutersAgree | src/rsb/eventprocessing/ScopeDispatcher.h:157-199 | after the same history both routers call the same multiset of sinks for every scope, and it is the one the rule demands |
| Routers.DispatcherAlwaysExact | src/rsb/eventprocessing/ScopeDispatcher.h:157-199 | the dispatcher is right after every history, without any condition |
| Routers.HistoryLosesNothing | src/rsb/transport/inprocess/Bus.cpp:62-148 | even after obstructed removals no live registered sink is missing from an entry it belongs to |
| Routers.LingeringSink | src/rsb/transport/inprocess/Bus.cpp:120-131 | a four-step history after which the index calls a removed live sink and the dispatcher does not |
| Routers.DoubledSink | src/rsb/transport/inprocess/Bus.cpp:62-131 | a five-step history after which one event calls a registered sink twice and the dispatcher once |
| Framing.FrameBytes | src/rsb/transport/socket/BusConnection.cpp:135-148 | a frame is the low 32 bits of the length, lowest byte first, and the message |
| Framing.RoundTripIff | src/rsb/transport/socket/BusConnection.cpp:131-148 | reading a stream of frames returns the messages sent if and only if each is shorter than 2^32 bytes |
| Framing.PrefixRoundTrip | src/rsb/transport/socket/BusConnection.cpp:188-276 | a stream cut anywhere yields a prefix of the messages, and all of those completely inside the cut |
| Framing.TornFrame | src/rsb/transport/socket/BusConnection.cpp:146-148 | after a write that failed part-way the reader delivers exactly the messages written completely |
| Bytes.LittleEndianInjective | src/rsb/transport/socket/BusConnection.cpp:135-138 | two lengths have the same four bytes exactly if they agree modulo 2^32 |
| SocketBus.BusConnection.constructor | src/rsb/transport/socket/BusConnection.cpp:60-85 | the server end writes the four handshake bytes, the client end reads them; nothing is pending |
| SocketBus.BusConnection.ReceiveEvent | src/rsb/transport/socket/BusConnection.cpp:180-186 | starts a length read, the only outstanding one |
| SocketBus.BusConnection.SendEvent | src/rsb/transport/socket/BusConnection.cpp:121-154 | byte by byte: the four length bytes and the message, nothing while shutting down, or a torn frame and throws; the stream stays framed; the reading half is untouched |
| SocketBus.BusConnection.HandleReadLength | src/rsb/transport/socket/BusConnection.cpp:188-237 | four bytes start a body read of the announced size; end of file, errors and short reads end reading and take the connection off its bus; end of file alone sets the shutdown flag |
| SocketBus.BusConnection.HandleReadBody | src/rsb/transport/socket/BusConnection.cpp:239-276 | a complete body that parses to a notification with a legal scope is handed to the bus as the event it stands for, and the next length read starts; it throws exactly for a parsed body with an illegal scope; any other outcome ends reading and takes the connection off its bus |
| SocketBus.BusConnection.PerformSafeCleanup | src/rsb/transport/socket/BusConnection.cpp:156-178 | takes the connection off its bus, if that still exists, and marks it as disconnecting |
| SocketBus.CompleteFrame | src/rsb/transport/socket/BusConnection.cpp:215-231 | header and body received make exactly one more frame of the stream |
| SocketBus.DeliveredInOrder | src/rsb/transport/socket/BusConnection.cpp:180-276 | what a connection has handed to its bus is a beginning of what the peer sent, all of it once everything arrived, even with a torn last frame |
| SocketBus.Feed | src/rsb/transport/socket/BusConnection.cpp:180-276 | the two read handlers, fed any byte stream to its end, hand over the events of the messages it frames up to the first that does not become one; they throw if and only if that one parses; a cut stream yields a prefix |
| SocketBus.IllegalScopeStops | src/rsb/transport/socket/BusConnection.cpp:258 | a stream with one message of illegal scope in front: everything after it is framed and nothing is handed over |
| SocketBus.Session | src/rsb/transport/socket/BusConnection.cpp:60-276 | server end made, messages sent, client end made from the first four bytes written and fed the rest: it delivers exactly the messages sent, as the events they stand for |
| SocketBus.SendToAll | src/rsb/transport/socket/BusServerImpl.cpp:155-173 | one attempt per connection but the origin, which gets nothing; the failing ones are exactly those that threw |
| SocketBus.WithoutConcat | src/rsb/transport/socket/BusImpl.cpp:116-122 | dropping connections from a list judges each occurrence by itself and keeps the order of the others |
| SocketBus.BusImpl.AddConnection | src/rsb/transport/socket/BusImpl.cpp:108-114 | the connection becomes the last of the list, whatever the list holds |
| SocketBus.BusImpl.RemoveConnection | src/rsb/transport/socket/BusImpl.cpp:116-122 | every occurrence goes, the order of the others stays |
| SocketBus.BusImpl.Handle | src/rsb/transport/socket/BusImpl.cpp:138-179 | local sinks, then one attempt on every connection; the list keeps exactly the connections that were shutting down or whose socket took the whole frame |
| SocketBus.BusImpl.HandleIncoming | src/rsb/transport/socket/BusImpl.cpp:195-208 | local sinks only; no connection and no list changes |
| SocketBus.BusServerImpl.HandleIncoming | src/rsb/transport/socket/BusServerImpl.cpp:144-177 | local sinks, then one attempt on every connection except the one it came from, which is never written to and never dropped |
| StarProtocol.StepKeeps | src/rsb/transport/socket/BusServerImpl.cpp:144-177 | every step of the star, including connects, failures and shutdowns, keeps the invariant behind ordering |
| StarProtocol.DeliveredPieces | src/rsb/QualityOfServiceSpec.h:61-66 | in every state of every run each process has delivered a contiguous, in-order piece of what each informer published; its own process all of it, the server a beginning |
| StarProtocol.AtMostOnce | src/rsb/transport/socket/BusServerImpl.cpp:150-175 | no process delivers an event twice, and no event is put on a connection to the process it came from |
| StarProtocol.Conservation | src/rsb/transport/socket/BusImpl.cpp:138-208 | with fixed membership, what an informer published is exactly what a process delivered, then what is on its way to it, in that order |
| StarProtocol.EverythingArrives | src/rsb/QualityOfServiceSpec.h:61-66 | with fixed membership a process has delivered everything exactly if nothing is on its way to it |
| StarProtocol.AssembledReachable | src/rsb/transport/socket/Factory.cpp:150-154 | every fixed membership is reached from nothing by clients connecting and being accepted |
| StarProtocol.Progress | src/rsb/transport/socket/BusServerImpl.cpp:144-177 | while an event is on its way to a process, a step other than a publication can be taken without any failure |
| StarProtocol.EventTravels | src/rsb/transport/socket/BusImpl.cpp:138-208 | the five steps of one event from a client over the server to another client, with every queue on the way |
| StarRefinement.RemainingClients | src/rsb/transport/socket/BusServerImpl.cpp:171-175 | the connection list without its failing members is the list the star protocol leaves |
| StarRefinement.SendUp | src/rsb/transport/socket/BusImpl.cpp:153-178 | publishing in a client process is the protocol's step: its connection, if still listed, sends exactly what the protocol queues, and stays listed exactly if the protocol keeps the link |
| StarRefinement.SendDown | src/rsb/transport/socket/BusImpl.cpp:153-178 | publishing in the server process is the protocol's broadcast: every connection sends exactly what the protocol queues towards its client, and the protocol's next state describes the connections left |
| StarRefinement.Forward | src/rsb/transport/socket/BusServerImpl.cpp:144-177 | handling a received event is the protocol's broadcast to all but its sender, and the protocol's next state describes the connections left |
| StarRefinement.Accept | src/rsb/transport/socket/BusServerImpl.cpp:122-127 | adding an accepted connection is the protocol's step |
| StarRefinement.Drop | src/rsb/transport/socket/BusServerImpl.cpp:104-108 | removing a connection is the protocol's step |
| StarRefinement.ShutDown | src/rsb/transport/socket/BusConnection.cpp:93-103 | shutting the server's end of a connection down is the protocol's step |
| StarRefinement.Connect | src/rsb/transport/socket/Factory.cpp:150-154 | a client that connects lists its connection from then on, as in the protocol |
| StarRefinement.ClientDrop | src/rsb/transport/socket/BusImpl.cpp:116-122 | a client that drops its connection lists none, as in the protocol |
| StarRefinement.ClientShutDown | src/rsb/transport/socket/BusConnection.cpp:93-103 | shutting the client's end of its connection down is the protocol's step |
| AcceptHandshake.RunKeeps | src/rsb/transport/socket/BusServerImpl.cpp:68-142 | under every interleaving one token circulates: an outstanding accept or a running handler, and none once the flag was cleared |
| AcceptHandshake.AcceptSafety | src/rsb/transport/socket/BusServerImpl.cpp:75-84 | at most one accept is outstanding; when the busy-wait has ended none is, and none is started before the next activation; the server is active exactly between the ends of activation and deactivation |
| AcceptHandshake.ConnectionsCounted | src/rsb/transport/socket/BusServerImpl.cpp:129-142 | in every run the connections made are as many as the accepts that succeeded, but for one whose handler has just been entered |
| AcceptHandshake.WaitEndsIff | src/rsb/transport/socket/BusServerImpl.cpp:80-84 | after the cancel every continuation by the two threads clears the flag within four steps, and one can always go on, if and only if the handler was not between its flag test and re-arming; if it was, no continuation clears it |
| AcceptHandshake.StrandedIff | src/rsb/transport/socket/BusServerImpl.cpp:137-141 | the busy-wait is stranded exactly if the cancel falls between the flag test and the re-arming |
| AcceptHandshake.StrandedStays | src/rsb/transport/socket/BusServerImpl.cpp:80-84 | a stranded wait stays stranded whatever the two threads do by themselves |
| AcceptHandshake.WaitProgresses | src/rsb/transport/socket/BusServerImpl.cpp:80-84 | a wait that is not stranded can always go on, and each step brings its end nearer |
| AcceptHandshake.StrandedReachable | src/rsb/transport/socket/BusServerImpl.cpp:110-142 | a run that ends in a stranded wait with no step left |
| Ordering.InOrderLists | src/rsb/transport/socket/Serialization.cpp:98-113 | iterating a sorted container visits each element once in ascending order |
| Ordering.AscendingIsInOrder | src/rsb/transport/socket/Serialization.cpp:115-123 | a list is the sorted form of its elements exactly if it ascends |
| Ordering.SortedRoundTrip | src/rsb/transport/socket/Serialization.cpp:98-113 | writing a map in key order and reading it back gives the map |
| Ordering.SortedIffAscending | src/rsb/transport/socket/Serialization.cpp:58-66 | a list of entries survives being stored and written again exactly if its keys ascend |
| Ordering.LexicographicIff | src/rsb/transport/socket/Serialization.cpp:98-113 | sequences compare by the first place in which they differ, a proper prefix being smaller |
| Events.StringLessIff | src/rsb/transport/socket/Serialization.cpp:98-113 | map keys compare as strings do: a proper prefix first, else by the first differing character |
| Events.IdLessIff | src/rsb/EventId.cpp:71-80 | ids compare by sequence number, and equal ones by the first differing byte of the participant id |
| Events.IdOrder | src/rsb/EventId.cpp:66-80 | ids are strictly totally ordered, so ids neither of which is smaller are equal |
| Events.MetaData.SetUserTime | src/rsb/MetaData.cpp:84-91 | stores the time, or the current time for zero, under the key and nothing else |
| Events.MetaData.SetUserInfo | src/rsb/MetaData.cpp:232-235 | replaces the value of one key and nothing else |
| Events.MetaData.SetCreateDate | src/rsb/MetaData.cpp:93-102 | a date before the epoch is refused and changes nothing; any other is stored as it is, the epoch as zero |
| Events.MetaData.SetUserDate | src/rsb/MetaData.cpp:196-200 | a date before the epoch is refused and leaves a zero under the key; any other is stored as it is |
| Events.Event.AddCause | src/rsb/Event.cpp:175-177 | adds the id and tells whether it was new |
| Serialization.NotificationToEvent | src/rsb/transport/socket/Serialization.cpp:39-79 | fails exactly for an unparseable scope; otherwise the event is the one the notification stands for, later duplicates winning, zero times replaced |
| Serialization.DecodedFields | src/rsb/transport/socket/Serialization.cpp:39-76 | field by field: id from the first sixteen bytes of the sender id, scope, method, data, and the three times |
| Serialization.DecodedCollections | src/rsb/transport/socket/Serialization.cpp:58-76 | user times and infos hold the last entry under each key, the exposed wire schema overriding; the causes are those listed |
| Serialization.EventToNotification | src/rsb/transport/socket/Serialization.cpp:81-126 | fails exactly without an id; otherwise every field is copied, infos and times list exactly the entries of the maps, each key before every greater one as strings compare, and the causes ascend by sequence number, then by the first differing byte |
| Serialization.WriteEntries | src/rsb/transport/socket/Serialization.cpp:98-113 | exactly the entries of the map, in ascending order of keys |
| Serialization.WriteCauses | src/rsb/transport/socket/Serialization.cpp:115-123 | the causes in id order |
| Relay.Forward | src/rsb/transport/socket/BusServerImpl.cpp:144-159 | what a server sends on for a notification it received is the relayed notification |
| Relay.SchemaAlwaysPresent | src/rsb/transport/socket/Serialization.cpp:74-76 | a received event carries the wire schema of its notification and a submitted one that of its converter, so the lookup before sending always succeeds |
| Relay.RelayIff | src/rsb/transport/socket/Serialization.cpp:39-126 | a notification passes a server unchanged if and only if it is canonical: normalised scope, no empty method, ascending lists, wire schema among the infos, no zero time |
| Relay.EncodedCanonicalIff | src/rsb/transport/socket/Serialization.cpp:81-126 | an encoded event is canonical if and only if it carries its wire schema and no zero time |
| Relay.RoundTripIff | src/rsb/transport/socket/Serialization.cpp:39-126 | decoding what was encoded gives the event back, but for the receive time and the untransmitted data type, if and only if no time is zero |
| Relay.HopsIff | src/rsb/transport/socket/BusServerImpl.cpp:144-177 | a chain of servers of any length passes exactly what one server passes |
| Relay.FirstHopSettles | src/rsb/transport/socket/BusServerImpl.cpp:144-177 | whatever comes in, servers after the first change nothing more |
| Relay.OutConnectorHandle | src/rsb/transport/socket/OutConnector.cpp:89-100 | stamps the send time on the event; the bus gets a copy with the wire data and the wire schema as user info; nothing else of the event changes |
| Relay.SentUnchangedIff | src/rsb/transport/socket/OutConnector.cpp:89-100 | an event sent by the out connector crosses any number of servers unchanged if and only if its create and user times are not zero |
| Relay.SendEpoch | src/rsb/MetaData.cpp:93-102 | an event with a create time at the epoch and a refused user time leaves the out connector with two zeros and the first server with that server's clock in their place |
| Informers.Informer.CheckedPublish | src/rsb/Informer.cpp:109-135 | an event without a type, of another type, or whose scope string does not begin with the informer's is refused, in that order, and nothing changes; any other gets the next id and is published |
| Informers.Informer.NextSequenceNumber | src/rsb/Informer.cpp:142-145 | post-increment modulo 2^32 |
| RequestReply.StepKeeps | src/rsb/patterns/RemoteServer.cpp:76-125 | every call, answer and delivery keeps the protocol invariant, for all clients and servers at once |
| RequestReply.PendingIsUnanswered | src/rsb/patterns/RemoteServer.cpp:76-117 | below 2^32 publishes the keys waited for are exactly the ids of the unanswered calls |
| RequestReply.CompletedOnce | src/rsb/patterns/RemoteServer.cpp:93-125 | a future keeps its first outcome whatever is delivered later, duplicates included |
| RequestReply.DeliveryCompletesIff | src/rsb/patterns/RemoteServer.cpp:93-125 | a reply changes a future if and only if it is waited for under the smallest cause of the reply |
| RequestReply.CompletedByAnswer | src/rsb/patterns/LocalServer.cpp:96-125 | behind every completed future there is an answer of some server to a published request, with the future's id as smallest cause |
| RequestReply.CompletedByDelivery | src/rsb/patterns/RemoteServer.cpp:93-125 | behind every completed future of a run there is a delivery step that found it unset and set it to what it holds, with a reply some server published as an answer |
| RequestReply.AnswerCompletesIff | src/rsb/patterns/RemoteServer.cpp:99-124 | delivering an answer to a pending call completes the call with it if and only if the request is the smallest cause of the reply, always so for typed callbacks |
| RequestReply.OwnAnswerIff | src/rsb/patterns/RemoteServer.cpp:99-124 | whenever delivering an answer changes a future, it is an answer to that future's own request if and only if the request is the smallest cause, always so for typed callbacks; the future holds an error exactly if the callback threw or marked its event, with the text the caller sees; the debug assertion on error replies holds for typed callbacks |
| RequestReply.MistakenAnswer | src/rsb/patterns/RemoteServer.cpp:99-104 | a run of four steps in which the first of two pending calls gets the answer to the second |
| RequestReply.OthersIgnoreReply | src/rsb/patterns/RemoteServer.cpp:93-117 | a broadcast reply of a typed callback changes no client but the one that asked |
| RequestReply.RepliesIff | src/rsb/patterns/LocalServer.cpp:96-125 | a server replies exactly to a request of the expected type that has an id, unless the callback's result has no type |
| RequestReply.ReplyCarries | src/rsb/patterns/LocalServer.cpp:110-123 | the reply, field by field: what the callback yielded or the marked text of its exception, addressed, with the request among its causes |
| RequestReply.AnsweredCall | src/rsb/patterns/RemoteServer.cpp:76-125 | the run of one call answered: published, served and delivered, it leaves the future with the reply and nothing pending |
| RequestReply.ReplyIdsUnique | src/rsb/Informer.cpp:142-145 | in every run no two answers of a server share a reply id until it has given out 2^32 |
| RequestReply.CallWaitedForIff | src/rsb/patterns/RemoteServer.cpp:76-91 | a new call is waited for if and only if no pending call has its number modulo 2^32 |
| RequestReply.ForgottenForever | src/rsb/patterns/RemoteServer.cpp:88-117 | a call that is not waited for is never answered, in every continuation |
| RequestReply.WrappedCallIsForgotten | src/rsb/Informer.cpp:142-145 | the bound of 2^32 publishes is tight: after 2^32 unanswered calls the next one is never answered |
| Methods.RemoteMethod.Call | src/rsb/patterns/RemoteServer.cpp:76-91 | implements the client's call: publishes the caller's event as it is, but for scope, method and id, then stores the future unless its id is taken; an exception leaves no future |
| Methods.RemoteMethod.Publish | src/rsb/patterns/RemoteServer.cpp:83-85 | sets scope and method of the caller's event and publishes it; payload, type, causes and meta data stay |
| Methods.RemoteMethod.Handle | src/rsb/patterns/RemoteServer.cpp:93-125 | implements the client's handling of a reply, null events and replies without causes included, and tells whether the debug assertion on error replies holds |
| Methods.RemoteMethod.Register | src/rsb/patterns/RemoteServer.cpp:86-87 | inserting does not overwrite; no other future changes |
| Methods.RemoteMethod.Complete | src/rsb/patterns/RemoteServer.cpp:106-124 | the future is taken out of the map and set; no other future changes |
| Methods.LocalMethod.Handle | src/rsb/patterns/LocalServer.cpp:96-125 | publishes the reply with the request among its causes, or nothing for a mismatched request type or an untyped reply, even if the callback returns the request itself |
| Methods.LocalMethod.Dispatch | src/rsb/patterns/LocalServer.cpp:121-124 | the request joins the causes and the reply is published, unless it has no type |
| Methods.LocalMethod.Produce | src/rsb/patterns/LocalServer.cpp:110-119 | an exception becomes a marked string event; typed results get a fresh event |
| BitLengths.BitLength | src/rsb/util/MD5.cpp:303-326 | the carry code computes the coded words, without overflowing 32 bits |
| BitLengths.LengthExactIff | src/rsb/util/MD5.cpp:303-326 | the low word is always the one of RFC 1321 section 3.2, the high word if and only if no carry test misfires |
| BitLengths.LengthBound | src/rsb/util/MD5.cpp:303-326 | below 2^29 bytes both words are right |
| BitLengths.LengthBoundTight | src/rsb/util/MD5.cpp:303-326 | at 2^29 bytes the high word is 2 instead of 1 |
| Md5Hasher.MacrosAgree | src/rsb/util/MD5.cpp:67-74 | the optimised macros are the auxiliary functions of RFC 1321 section 3.4 |
| Md5Hasher.OPAgrees | src/rsb/util/MD5.cpp:149-187 | one coded operation is one operation of RFC 1321 |
| Md5Hasher.StepsAgree | src/rsb/util/MD5.cpp:149-241 | any number of steps with the macros equals the table-driven steps of RFC 1321, for every state and block |
| Md5Hasher.Unrolled | src/rsb/util/MD5.cpp:164-241 | the 64 unrolled statements are the 64 steps with word indices i, 1+5i, 5+3i and 7i modulo 16 and the shifts and sines of the tables |
| Md5Hasher.Round1 | src/rsb/util/MD5.cpp:164-179 | the first 16 statements are steps 0 to 15 |
| Md5Hasher.Round2 | src/rsb/util/MD5.cpp:190-205 | the next 16 statements are steps 16 to 31 |
| Md5Hasher.Round3 | src/rsb/util/MD5.cpp:208-223 | the next 16 statements are steps 32 to 47 |
| Md5Hasher.Round4 | src/rsb/util/MD5.cpp:226-241 | the last 16 statements are steps 48 to 63 |
| Md5Hasher.MD5Hasher.Init | src/rsb/util/MD5.cpp:109-119 | establishes the invariant for the empty message |
| Md5Hasher.MD5Hasher.Transform | src/rsb/util/MD5.cpp:124-248 | processes one block as RFC 1321 section 3.4 does |
| Md5Hasher.MD5Hasher.Write | src/rsb/util/MD5.cpp:255-289 | appends the bytes to what was written and keeps the invariant: all complete blocks absorbed, fewer than 64 bytes buffered |
| Md5Hasher.MD5Hasher.Pad | src/rsb/util/MD5.cpp:328-346 | pads to 56 modulo 64, with an extra block where the mark leaves no room |
| Md5Hasher.MD5Hasher.Final | src/rsb/util/MD5.cpp:297-378 | the blocks transformed are the message with its padding and length words; the buffer starts with the digest |
| Md5Hasher.MD5Hasher.Hash | src/rsb/util/MD5.cpp:93-105 | the digest of the whole message, which is the one of RFC 1321 whenever no carry test misfires |
| Md5Vectors.RotationIs | src/rsb/util/MD5.cpp:64 | the rotation is the circular shift of 32-bit words, for every word and each of the sixteen amounts used |
| Md5Vectors.EmptyDigest | src/rsb/util/MD5.cpp:93-105 | the empty message has the digest that section A.5 of RFC 1321 lists |
| Md5Vectors.FoxDigest | test/rsb/util/MD5Test.cpp:49 | the 43 bytes of the repository's own test message have the digest its test expects |
| Md5Hasher.PaddingExactIff | src/rsb/util/MD5.cpp:297-358 | the blocks transformed are those of the padded message of RFC 1321 if and only if no carry test misfires |
| Md5Hasher.SplitIndependent | src/rsb/util/MD5.cpp:255-289 | however a message is split into writes, the hasher ends in the same state with the same buffered rest |
| Converters.ConverterSelectionToMap | src/rsb/Factory.cpp:66-104 | fails exactly for sending with two schemas for one type; otherwise every type has the schema listed with it, and every schema the type listed last |
| Converters.LastSelected | src/rsb/Factory.cpp:66-104 | the last entry for a key decides, in both directions |
| Converters.ChosenUnique | src/rsb/converter/Repository.h:72-128 | at most one map fits, so the iteration order does not matter |
| Converters.UnambiguousConverterMap.AddConverter | src/rsb/converter/UnambiguousConverterMap.h:87-97 | fails exactly for a key already stored and then changes nothing |
| Converters.Lookup | src/rsb/Factory.cpp:106-146 | from the selection list and the repository to a converter: nothing is found unless the list is acceptable and no key ambiguous; then a selected key yields exactly the converter selected for it and any other key the only one registered with it |
| Converters.Repository.RegisterConverter | src/rsb/converter/Repository.h:199-216 | fails exactly for a known signature without replacement and then changes nothing |
| Converters.Repository.GetConvertersForSerialization | src/rsb/converter/Repository.h:72-128 | succeeds if and only if no data type without a selection has two converters; the result holds the one admitted converter per data type; a failure names all schemas registered with the type, at least two |
| Converters.Repository.GetConvertersForDeserialization | src/rsb/converter/Repository.h:130-186 | the same by wire schema |
| Converters.SameConverterBothWaysIff | src/rsb/Factory.cpp:66-104 | the converter chosen for sending a type is the one chosen for receiving its wire schema if and only if that schema is unselected or selected to the type |
| Converters.AsymmetricSelection | src/rsb/Factory.cpp:66-104 | two data types of one wire schema, the second selected: the first is sent with its own converter and received by that of the second |

## Left out

- Methods.RemoteMethod.Handle: where the debug assertion fails, a build with assertions stops the process; the contract then describes a build without them.
- Methods.LocalMethod.Handle: payloads are byte strings; casts of typed payloads are not part of this model.
- RequestReply.StepKeeps: a message is received as it was published; times and user infos that transports add on the way are not part of this model, and a call with its publish is one step because the client's mutex keeps replies out until the future is stored.
- Relay.SentUnchangedIff: the clock reads the same during the conversion of one notification; conversions at different servers have different readings.
- Serialization.NotificationToEvent: absent optional wire fields read as their defaults; reading past the end of a sender id yields arbitrary bytes and has no other effect.
- Relay.OutConnectorHandle: the serializing converter is a parameter that throws or yields schema and data.
- SocketBus.BusConnection.SendEvent: a write fails at one position of the frame; partial progress inside the operating system is not part of this model.
- SocketBus.BusImpl.Handle: the notification bytes of an event are given; turning the event into them is in Serialization, with the wire format abstracted to a record. The list holds no connection twice, as each is added once, when it is made.
- SocketBus.BusConnection.HandleReadBody: the end of the process that an exception leaving the handler brings about is not part of this model.
- SocketBus.BusServerImpl.HandleIncoming: the contract also covers an event without a wire schema, for which every other connection fails; by Relay.SchemaAlwaysPresent no such event gets there.
- Events.MetaData.SetCreateDate: the overloads that take seconds in floating point are not part of this model.
- Scopes.UpdateStringCache: the printed size is required to be below 2^32, where the code's size computation is exact.
- InprocessBus.Bus.FillEntry: the order in which a set of weak pointers is copied into a new entry is arbitrary.
- Shared and weak pointers: which weak pointers have expired is a parameter that may grow between operations and is constant during one; sinks are values with an address.
- Inheritance: the server bus holds a client bus instead of deriving from it; the strong dispatcher is the weak one with nothing expired.
- StarRefinement.Forward: covers, with SendDown and SendUp, the sending side of the buses; that each queue of the star is a byte stream of frames rests on `SocketBus.DeliveredInOrder` for one connection and is not stated for whole runs.
- Locks: the protocols interleave at the granularity the locks give; deadlock, re-entrant publishing from handlers and exceptions thrown by handlers are not part of this model.
- Liveness: only the end of the shutdown busy-wait is treated; waiting for clients to disconnect is not.
- Boost.Asio, name resolution, socket options, the protocol buffer encoding, the future and pool classes of the RSC library.
- The sine table of RFC 1321 is given by its constants; the sine function is not part of this model.
- Hexadecimal rendering of digests and the cut at the first NUL byte in the MD5 string constructor.
- Converter codecs, participant configuration, route configurators, filters other than the method filter, introspection, plugins: each claim about them is settled by reading one branch.
