# A verified model of the login proxy

AsyncAsioTCPServer accepts Minecraft clients, reads the first frame each of them sends,
answers status requests itself, and connects login clients through to an upstream server
with the host name and port of their handshake replaced. This project models its codec, its
buffered reader, the life of one connection and the server with its registry of
connections, and proves what they promise together.

## What is modelled

**Codec** (`VarInt.dfy`, `Protocol.dfy`, `Framing.dfy`). VarInts follow the Minecraft Java
Edition protocol's "VarInt and VarLong" page. `Decode` says what the encoding means, as a
base-128 sum; `Read` and `Write` are the loops with their masks, shifts and 32-bit limits, on
`array`s. Handshake packets have a grammar (`WellFormed`, `Join`), a parser specification
(`Split`) and the imperative parser and serializer. `ScanFrame` is what a reader of one
length-prefixed frame knows after any number of bytes.

**Reader** (`Reader.dfy`). `MCPacketReader` is the class with its 1024-byte buffer and two
cursors on a `Socket` whose reads return any non-empty piece of the stream. The coroutine is
written as straight-line code; every method is proved against `Intercept`, `ScanFrame` and
`StatusReplies`, functions of the client's bytes alone. `InterceptIsOnline` makes these
functions usable one byte at a time, which is how the session machine resumes the coroutine.

**Session** (`Outstanding.dfy`, `SessionMachine.dfy`, `ClientSession.dfy` and the theorems about
them). `SessionState` is the session's fields, its coroutine's local state, its outstanding
operations and the bytes that went through its sockets. An event completes or advances an
operation, runs the handler of a completed one, or is a call from the server. A completed
operation stays queued with its result until its handler runs, so handlers also run after
`End` with results from before it. Writes make any partial progress, reads return any length
up to the buffer, sockets that were closed complete nothing, any operation may fail. Class
`Session` holds the same state in fields and arrays, and its methods and handlers are proved
to do what the functions of the machine say.

**Server** (`SystemMachine.dfy`, `ProxyServer.dfy` and the theorems about them). `System` is the
server's fields, what is queued on its strand, and all sessions, each named by its number
where the program has a `shared_ptr`. Sessions run on their own strands between any two
server steps, also between two rounds of the loop in `Stop`. Class `Server` is proved against
the functions of this machine.

**What the definitions come to** (`WireFormat.dfy`, `SessionOutcomes.dfy`, `SystemOutcomes.dfy`).
The byte layouts and limits of the wire in numbers; exactly when a session is told to end and what
each handler of a live one leads to; exactly whom the server admits and when it stops. These do not
rest on the functions they speak of, so they hold those functions to the source.

**Together** (`EndToEnd.dfy`, `SystemDrain.dfy`, `SystemShutdown.dfy`, `UpstreamSocket.dfy`,
`Witnesses.dfy`). `ProxyEndToEnd` is the one statement about every client in every run of the
whole program. `RunBounded` bounds every run by what comes from outside, and `EveryRunQuiesces`
says where a run after Stop comes to rest. `AlwaysStoppable`, `LoginCanRelay` and
`StatusCanBeAnswered` say that what the safety theorems allow can in fact happen, in runs of the
whole program.

## Conventions

- Bytes and machine integers are subset types of `int`. `&`, `|`, `<<` and `>>` are defined bit by
  bit in module `Bits`; truncation to 32 bits and the 64-bit wrap of the deadline generation
  are written out.
- Exceptions are `Failure` results. A method that returns `bool` and may also throw returns
  `Result<bool>`, or `Result<Option<T>>` where it also delivers a value.
- `dispatch` runs its function at once or queues it, by an unconstrained choice (`inline`);
  `post` always queues. `co_spawn` on a strand is a dispatch.
- A wait is aborted only when its timer is cancelled while the wait has not expired. An accept
  is aborted only by `Stop`; otherwise it succeeds or fails.
- The strand of a session and the strand of the server each run one handler at a time.

## Where the code differs from what one would expect

- `End` is not the last word on the upstream socket. `Start` does not look at
  `shutdown_initiated` between a successful interception and its connect
  (src/code/Session.cpp:21-30), and Asio's connect over a list of endpoints closes and reopens the
  socket it is given (src/external/asio/asio/impl/connect.hpp:312-315). `LateConnectReopens`
  gives, for every login frame the parser accepts, a run of the program whose session is shut
  down with the upstream socket open. `EndCloses` gives the exact condition, on the state in which
  `End` is called: the socket can be open again in some later state if and only if the coroutine is
  in its handshake, its last read has succeeded, and what it has read is a complete login frame.
  The repository's README says that shutdown cancels active sockets; this one is only closed with
  the session object. No relay operation ever uses it (`NoRelayAfterShutdown`).
- `FillPacket` catches `out_of_range`, which `CurrentByte` never throws; the model has no such case.
- The VarInt decoder accepts encodings that are not minimal, so parsing and serializing normalise
  rather than invert each other (`Normalises`).

## Model
| member | source | states |
|---|---|---|
| VarInt.Read | src/code/VarInt.cpp:8-26 | the loop accepts a span exactly when a complete encoding of a value below 2^32 starts it, and then returns that value and its size; it throws invalid_argument for null, incomplete, overlong and too large input |
| VarInt.Write | src/code/VarInt.cpp:28-44 | writes exactly the encoding, fails with length_error exactly when the target is null or too small, leaves every other byte alone, writes nothing on failure; the guard of the second loop never cuts an encoding short |
| VarInt.DecodeAccepts | src/code/VarInt.cpp:13-25 | what is accepted: one to five bytes, only the last without bit 7, base-128 sum below 2^32, minimal or not, with any bytes behind |
| VarInt.RoundTrip | src/code/VarInt.cpp:8-44 | reading inverts writing for every 32-bit value, whatever follows |
| VarInt.Shortest | src/code/VarInt.cpp:28-44 | no encoding of a value is shorter than the written one, none other has its length, and it is reached exactly by the encodings without a final zero group |
| VarInt.PrefixFree | src/code/VarInt.cpp:8-26 | a stream begins with at most one encoding |
| WireFormat.KnownVarInts | src/code/VarInt.cpp:28-44 | the bytes of the encodings at the width boundaries, and of 300 |
| WireFormat.FifthByteDecides | src/code/VarInt.cpp:17-23 | after four bytes with bit 7 the fifth completes a value exactly if it is below 16, whatever follows |
| Protocol.SplitAccepts | src/code/Protocol.cpp:9-40 | the parser accepts exactly the words of the handshake grammar that fit a packet, each in the one possible way |
| Protocol.ReadField | src/code/Protocol.cpp:13-17 | the field reader takes the VarInt at the cursor and moves the cursor behind it, never past the end |
| Protocol.ParseTail | src/code/Protocol.cpp:22-38 | address, port and next state are cut and checked as the grammar says, up to the last byte |
| Protocol.ParseHandshake | src/code/Protocol.cpp:9-40 | the imperative parser returns the meaning of a grammatical packet and throws invalid_argument on every other |
| Protocol.SerializeHandshake | src/code/Protocol.cpp:52-74 | frames the minimal spelling of a valid handshake and throws invalid_argument for every other; no write of the 4096-byte payload throws |
| Protocol.HandshakeRoundTrip | src/code/Protocol.cpp:9-74 | parsing inverts serializing, and payloads have 7 to 266 bytes |
| Protocol.Normalises | src/code/Protocol.cpp:9-74 | re-serializing an accepted packet never lengthens it, keeps its meaning, and changes nothing exactly when its four VarInts are minimal |
| Protocol.AcceptedSizes | src/code/Protocol.cpp:10-38 | accepted packets have 7 to 277 bytes |
| Protocol.FrameSizes | src/code/Protocol.cpp:57-73 | serialized frames have 8 to 268 bytes |
| Protocol.FramePacket | src/code/Protocol.cpp:42-50 | length prefix and payload, or length_error above 2^31 - 1 bytes |
| Protocol.PongResponse | src/code/Protocol.cpp:76-80 | echoes a nine-byte ping as a frame and throws for anything else |
| WireFormat.WireLayout | src/code/Protocol.cpp:63-70 | a serialized handshake is packet id 0, protocol, address behind its length, port with the high byte first, and next state, in this order |
| WireFormat.HostsServed | src/code/Protocol.cpp:22-39 | every address of 1 to 255 bytes without NUL, with any protocol and port and either state, is serialized and read back |
| WireFormat.HostsNotSerialized | src/code/Protocol.cpp:53-56 | no other address is serialized |
| WireFormat.HostsNotParsed | src/code/Protocol.cpp:22-29 | no other address is parsed, however its length is spelled and whatever follows |
| WireFormat.TruncatedRejected | src/code/Protocol.cpp:36-38 | no accepted packet is a proper beginning of another, so one cut off or with bytes behind it is rejected |
| WireFormat.LongestPacket | src/code/Protocol.cpp:10-38 | a packet of 277 bytes is accepted: the bound is reached |
| WireFormat.LongestFrame | src/code/Protocol.cpp:57-73 | a frame of 268 bytes is serialized: the bound is reached |
| Framing.StreamingAgreesWithBatch | src/code/MCPacketReader.cpp:129-151 | the streaming VarInt reader succeeds exactly where the batch decoder does, with its value and its bytes, and asks for more only after fewer than five bytes that all announce another |
| Framing.ScanFrameExactly | src/code/MCPacketReader.cpp:15-21 | a frame reader's outcome from the batch decoder alone: a length out of bounds is refused as soon as it is read, before its body; a body is there with its last byte; five bytes that hold no length are refused, with an exception if the fifth lacks bit 7 |
| WireFormat.FramesExactly | src/code/MCPacketReader.cpp:15-21 | it returns exactly the bodies within its bounds that stand behind their length, in any spelling |
| Framing.ScanIsOnline | src/code/MCPacketReader.cpp:129-170 | a frame's outcome is known after exactly the bytes it uses, neither earlier nor changed by what follows |
| Framing.ScanOfFrame | src/code/Protocol.cpp:42-50 | a frame in front of anything is read back and nothing behind it is touched |
| Framing.FramesRoundTrip | src/code/Protocol.cpp:42-50 | any list of non-empty packets survives framing, and any suffix is left unread |
| Framing.FramesUnique | src/code/Protocol.cpp:42-50 | no two lists of packets have the same bytes on the wire |
| Framing.SerializedHandshake | src/code/Protocol.cpp:52-74 | a serialized handshake, read as a frame and parsed, is the handshake again, whatever follows |
| Reader.MCPacketReader.BlockRead | src/code/MCPacketReader.cpp:181-200 | puts one more stream byte between the cursors, resetting them at 1024 without losing any; fails exactly at the end of the stream |
| Reader.MCPacketReader.CurrentByte | src/code/MCPacketReader.cpp:173-178 | returns the next byte of the stream, in bounds, and takes no byte from the socket that it does not hand out |
| Reader.MCPacketReader.ReadVarInt | src/code/MCPacketReader.cpp:129-151 | value, false, exception or end of stream as the streaming specification says, consuming exactly its bytes |
| Reader.MCPacketReader.FillPacket | src/code/MCPacketReader.cpp:153-170 | fills the packet with exactly the next bytes, or fails at the end of the stream; an empty packet is false |
| Reader.MCPacketReader.ReadFrame | src/code/MCPacketReader.cpp:15-21 | length, check and body of a frame in all its outcomes, with no byte read beyond it |
| Reader.MCPacketReader.BuildStatusResponse | src/code/MCPacketReader.cpp:88-102 | the hand-built response is a frame of id, document length and document |
| Reader.MCPacketReader.AnswerPing | src/code/MCPacketReader.cpp:110-124 | sends a prefix of the reply a ping is due, all of it unless something fails; consumes exactly the ping frame, or the rest of a stream that ends within it; and returns or throws as its reading and the write determine |
| Reader.MCPacketReader.WriteCustomStatusRequest | src/code/MCPacketReader.cpp:62-127 | the same for the whole status exchange: bytes sent, bytes consumed and result |
| Reader.MCPacketReader.Store | src/code/MCPacketReader.cpp:43-46 | the packet is the front of the session's buffer and total_written its length, or length_error and nothing changed |
| Reader.MCPacketReader.RewriteLogin | src/code/MCPacketReader.cpp:33-46 | the replacement of a login handshake is in the session's buffer, or invalid_argument or length_error and nothing changed |
| Reader.MCPacketReader.InterceptHandshake | src/code/MCPacketReader.cpp:13-60 | result, consumed bytes, bytes sent and buffer for every client stream, by the verdict on its bytes and, for status clients, the outcome of the exchange; on every result but true the buffer is unchanged |
| Reader.InterceptIsOnline | src/code/MCPacketReader.cpp:13-60 | the verdict on a client depends on its bytes alone, not on fragmentation, and falls after exactly the bytes it uses |
| Reader.LoginRewritten | src/code/MCPacketReader.cpp:33-57 | a login is accepted exactly when its frame is well formed and the configured host can be serialized; what replaces it decodes to the client's protocol and state 2 with the configured host and port, in 8 to 268 bytes, so the session's buffer cannot overflow |
| Reader.EveryHandshakeServed | src/code/ServerConfig.cpp:63-65 | under settings that start-up lets through, a client is a login client or a status client exactly as its first frame says, and every frame that parses is served |
| Reader.RefusedExactly | src/code/MCPacketReader.cpp:15-23 | who is not served, and how: with false for a length outside 1 to 4096 or five bytes that all have bit 7, with an exception for a length of 2^32 or more or a packet that does not parse; and after how many bytes |
| Reader.InterceptBounded | src/code/MCPacketReader.cpp:13-21 | the decision falls within 4101 bytes |
| Reader.StatusReadable | src/code/MCPacketReader.cpp:88-102 | a client reads packet id 0 and the whole status document from the response, and nothing behind it |
| Reader.PongEchoes | src/code/MCPacketReader.cpp:118-124 | a pong carries the nine bytes of its ping |
| WireFormat.RequestExactly | src/code/MCPacketReader.cpp:65-72 | the status response is sent exactly for a frame of one byte, packet id 0 |
| WireFormat.PingExactly | src/code/MCPacketReader.cpp:111-119 | the pong is sent exactly for a frame of nine bytes that begins with 1 |
| SessionInvariants.StepInv | src/code/Session.cpp:12-158 | every event keeps the session invariant: exclusive operations, one current deadline, conserved streams, what each outstanding operation may find, one erase |
| SessionInvariants.AfterInv | src/code/Session.cpp:12-158 | so does every run |
| SessionTheorems.StreamsConserved | src/code/Session.cpp:48-146 | in every run what reached the server, with what waits in the buffer, is the rewritten handshake and then exactly the client's bytes after its frame; the other direction is copied unchanged; without a login nothing passes |
| SessionTheorems.SocketsExclusive | src/code/Session.cpp:81-146 | no two outstanding operations read one socket, write one socket, or use one relay buffer, and a connect has its socket to itself |
| SessionTheorems.RelayAlternates | src/code/Session.cpp:86-145 | a live relay has both sockets open and exactly one operation in each direction |
| SessionTheorems.RefilledWhenEmpty | src/code/Session.cpp:99-146 | a buffer is filled only when all of its previous content was delivered |
| SessionTheorems.NothingHeldBack | src/code/Session.cpp:80-146 | a direction whose read is in flight has passed on everything it has read: upstream the rewritten handshake and all the client sent after its frame, downstream all the server sent |
| SessionTheorems.NoRelayAfterShutdown | src/code/Session.cpp:34-39 | after shutdown no step starts a relay operation, moves a byte or posts another erase, not even a late connect or a stale success |
| SessionTheorems.ShutdownIsFinal | src/code/Session.cpp:56-78 | the same over whole runs |
| SessionTheorems.NotStuck | src/code/Session.cpp:12-158 | a started session that is not shut down can always go on without waiting for its deadline or for a failure: some operation can succeed, at least in part, or its handler can run |
| SessionTheorems.GenerationBounded | src/code/Session.cpp:148-150 | the generation counter never exceeds 4, so it cannot wrap |
| SessionTheorems.CurrentWait | src/code/Session.cpp:29-33 | waits have distinct generations up to the current one; while handshaking or connecting one is current and not aborted, while relaying none is |
| SessionTheorems.ExpiryHandled | src/code/Session.cpp:152-157 | an expiry taken from the queue ends the session exactly when it is still current, and never a relay |
| SessionOutcomes.EndsExactly | src/code/Session.cpp:12-158 | a session is told to end by a call from outside, a failed operation, a frame that is refused, the sent pong, options that cannot be set, or its current deadline, and by nothing else |
| SessionOutcomes.SpawnOutcome | src/code/Server.cpp:127 | a spawned coroutine runs to its first read at once or is queued |
| SessionOutcomes.StartOutcome | src/code/Session.cpp:16-21 | a queued coroutine starts exactly if its session was not shut down, and otherwise does nothing |
| SessionOutcomes.HandshakeOutcome | src/code/Session.cpp:21-30 | each byte of the handshake leads to the next read, the status exchange, the end, or a connect with the replacement stored, as the verdict on the bytes so far says |
| SessionOutcomes.ConnectOutcome | src/code/Session.cpp:30-52 | a connect leads to a relay exactly if it succeeded, both sockets took their options and the session was not shut down; the relay starts with the whole replacement and a read of the server; every other connect leaves the session closed and shut down |
| SessionOutcomes.RelayOutcome | src/code/Session.cpp:80-146 | a relay operation that succeeded is followed by its counterpart, with what was read, and changes nothing else; one that failed ends the session |
| SessionOutcomes.ReadSizes | src/headers/Session.hpp:26 | a relay read takes 1 to 4096 bytes, a coroutine read one |
| SessionDrain.StepWork | src/code/Session.cpp:12-158 | every step of a session, live or shut down, lowers its work, counting the erase it may post; an arrival adds at most a constant |
| SessionDrain.DrainStep | src/code/Session.cpp:21-35 | after shutdown every step of the session lowers its work, including the coroutine that goes on to arm a timer and connect |
| SessionDrain.DrainBounded | src/code/Session.cpp:56-78 | so a run of its steps is no longer than its work |
| SessionDrain.DrainContinues | src/code/Session.cpp:56-78 | and while something is outstanding a step is possible that waits for no bytes, shut down or not |
| SessionDrain.Drained | src/code/Session.cpp:56-78 | where no step is possible nothing is outstanding and one erase was posted in all |
| SessionLifecycle.StepFollows | src/code/Session.cpp:56-63 | no step takes back a shutdown, a queued End or a start, and only the server starts a session |
| StatusConversation.RepliesAreDue | src/code/MCPacketReader.cpp:62-127 | in every run a client without a login was sent a beginning of the replies its bytes are due, and nothing else |
| StatusConversation.AllRepliesSent | src/code/MCPacketReader.cpp:62-127 | in every run, when the coroutine of such a client is over and was not thrown out of a failed read or write, the client has been sent all the replies its bytes are due |
| ClientSession.Session.constructor | src/code/Session.cpp:7-10 | a new object is the initial state of the machine |
| ClientSession.Session.ArmDeadline | src/code/Session.cpp:148-158 | aborts waits in flight and starts one under the next generation |
| ClientSession.Session.NotifyClosed | src/code/Session.cpp:74-77 | calls the callback at most once in the object's life, by posting one erase |
| ClientSession.Session.CloseSockets | src/code/Session.cpp:63-73 | shuts down, advances the generation, aborts the deadline, closes both sockets, and changes nothing else |
| ClientSession.Session.EndOnStrand | src/code/Session.cpp:62-77 | all of that once, nothing the second time |
| ClientSession.Session.End | src/code/Session.cpp:56-78 | on its strand it ends the session; elsewhere it does so or queues exactly one call |
| ClientSession.Session.WriteSource | src/code/Session.cpp:81-96 | starts the write unless shut down, and nothing else |
| ClientSession.Session.ReadSource | src/code/Session.cpp:99-112 | starts the read unless shut down, and nothing else |
| ClientSession.Session.WriteDest | src/code/Session.cpp:115-129 | starts the write unless shut down, and nothing else |
| ClientSession.Session.ReadDest | src/code/Session.cpp:132-146 | starts the read unless shut down, and nothing else |
| ClientSession.Session.OnConnect | src/code/Session.cpp:30-52 | refines the machine's connect handler (ConnectOutcome says what that does): generation first, then shutdown, error and options, then both relay directions |
| ClientSession.Session.OnWait | src/code/Session.cpp:152-157 | refines the machine's expiry handler |
| ClientSession.Session.Start | src/code/Session.cpp:12-21 | the coroutine up to its first suspension |
| ClientSession.Session.Connect | src/code/Session.cpp:27-30 | the coroutine after a successful interception |
| ClientSession.Session.Leave | src/code/Session.cpp:23-26 | the coroutine's two other ways out, by return or by exception |
| ClientSession.Session.ResumeHandshake | src/code/Session.cpp:21-30 | the coroutine resumed in the handshake frame moves the object as the machine does, on the verdict of the reader's specification |
| ClientSession.Session.ResumeRequest | src/code/MCPacketReader.cpp:65-107 | the same in the status request |
| ClientSession.Session.ResumePing | src/code/MCPacketReader.cpp:110-124 | the same in the ping |
| ClientSession.Session.RunHandler | src/code/Session.cpp:30-158 | whichever completed operation is taken from the queue, the object moves exactly as the machine does and posts exactly the erase the machine posts |
| SystemInvariants.ActInv | src/code/Server.cpp:81-146 | every step of the program keeps the server's invariant |
| SystemInvariants.ReachedInv | src/code/Server.cpp:81-146 | so does every run |
| SystemTheorems.Admission | src/code/Server.cpp:99-146 | never more members than max_connections; from Start to Stop exactly one of accept and retry wait is outstanding |
| SystemOutcomes.AdmittedExactly | src/code/Server.cpp:120-144 | an accepted client is served, as one more member, exactly if the server is not stopping and has fewer than max_connections members; otherwise it is ended and no member; unless stopping, the next accept is under way |
| SystemOutcomes.FailedAccept | src/code/Server.cpp:109-118 | after a failed accept its session is ended, no session is made, and the retry timer runs exactly if the failure was no abort and the server is not stopping |
| SystemOutcomes.RetryOutcome | src/code/Server.cpp:115-117 | when the timer expires the server accepts again, unless it is stopping |
| SystemOutcomes.HouseFills | src/code/Server.cpp:120-144 | for every n up to max_connections there is a run with exactly n members, all alive, and the next client awaited |
| SystemTheorems.HandlersNeverBlocked | src/code/Server.cpp:107-145 | any completed operation of the server can be handled; an accepted session is always one that can be started |
| SystemTheorems.RegistryConsistent | src/code/Server.cpp:102-127 | a member is shut down exactly while its one erase is queued, at most one erase is ever posted for a session, and none is erased before it is shut down |
| SystemTheorems.StoppedForGood | src/code/Server.cpp:87-124 | after Stop nothing queued before creates or registers a session |
| SystemOutcomes.StopsExactly | src/code/Server.cpp:25-97 | the server begins to stop by a delivered signal or a call of Stop and by nothing else; then every member is to be ended, whatever was under way is aborted, and what was completed is still handled |
| SystemOutcomes.SignalStops | src/code/Server.cpp:25-27 | until it stops, a started server in any reachable state has a signal wait or a delivered signal, and handling that signal stops it |
| SystemOutcomes.FailedExactly | src/code/Server.cpp:63-79 | a failure is recorded exactly if an exception left a handler of the event loop |
| SystemTheorems.StopLoopUndisturbed | src/code/Server.cpp:96 | while the loop of Stop runs the registry does not change and each round ends one member, whether End runs inline or is queued |
| SystemTheorems.MembersEnd | src/code/Server.cpp:81-97 | after the loop every member is shut down or has an End pending |
| SystemTheorems.ShutdownComplete | src/code/Server.cpp:81-97 | when nothing is pending the server was stopped, the registry is empty, and every session ever made, also the one of the outstanding accept, is shut down and erased once |
| SystemDrain.ActLoad | src/code/Server.cpp:81-146 | at any time, every step the program takes by itself lowers its load; what comes from outside adds at most a constant |
| SystemDrain.RunBounded | src/code/Server.cpp:81-146 | every run is no longer than the load it starts with plus a constant for each event from outside, wherever it starts and however the strands are scheduled |
| SystemDrain.NeverBusy | src/code/Server.cpp:107-146 | from the start of the program on, no loop of accepts, retries, erases or relay handlers turns without an event from outside |
| SystemDrain.OutsideAfterStop | src/code/Server.cpp:81-97 | after Stop only requests to stop and bytes for members whose End has not run can still come from outside |
| SystemDrain.SystemDrainStep | src/code/Server.cpp:81-146 | once the members are shut down every step but a further request to stop lowers the program's load and stays in this phase |
| SystemDrain.SystemDrainBounded | src/code/Server.cpp:81-146 | so a run in this phase is no longer than the load |
| SystemDrain.SystemDrainContinues | src/code/Server.cpp:81-146 | after Stop, members alive or not, the program can go on by itself until nothing is pending anywhere |
| SystemShutdown.AlwaysStoppable | src/code/Server.cpp:81-97 | from every reachable state of a started server a complete shutdown can be reached; no state is a trap |
| SystemShutdown.EveryRunQuiesces | src/code/Server.cpp:81-97 | in whatever order the program takes its steps after Stop, where it cannot go on by itself nothing is pending anywhere |
| ProxyServer.Server.constructor | src/code/Server.cpp:10-12 | a new server is the initial state of the machine |
| ProxyServer.Server.Start | src/code/Server.cpp:14-33 | one signal wait and one accept outstanding, nothing else |
| ProxyServer.Server.AcceptConnections | src/code/Server.cpp:99-107 | a fresh session and an accept for it, unless stopping |
| ProxyServer.Server.OnAccept | src/code/Server.cpp:107-145 | refines the machine's accept handler (AdmittedExactly and FailedAccept say what that does): error, over the limit or stopping, admission |
| ProxyServer.Server.OnRetry | src/code/Server.cpp:115-117 | accepts again unless the timer was aborted |
| ProxyServer.Server.Insert | src/code/Server.cpp:125 | the session becomes a member |
| ProxyServer.Server.SpawnSession | src/code/Server.cpp:127-142 | its coroutine is spawned on its own strand |
| ProxyServer.Server.Erase | src/code/Server.cpp:103-105 | the closed session is no member any more, every other one still is |
| ProxyServer.Server.CancelAll | src/code/Server.cpp:87-95 | aborts signal wait, retry wait and accept, those still under way only |
| ProxyServer.Server.EndRound | src/code/Server.cpp:96 | one round of the loop is one step of the machine |
| ProxyServer.Server.EndMembers | src/code/Server.cpp:96 | the loop ends every member once, in whatever order, and is a run of the machine |
| ProxyServer.Server.Stop | src/code/Server.cpp:81-97 | does all of that the first time and nothing again; membership is as before |
| ProxyServer.Server.OnSignal | src/code/Server.cpp:25-27 | stops unless the wait was aborted |
| ProxyServer.Server.RequestStop | src/code/Server.cpp:63-87 | from another thread: records the failure and queues one call of Stop |
| ProxyServer.Server.RunHandler | src/code/Server.cpp:25-145 | whichever completed task is taken from the server's strand, the object moves exactly as the machine's handler does (AdmittedExactly, FailedAccept, RetryOutcome, StopsExactly and RegistryConsistent say what that does), followed by the rounds of Stop's loop if that was called |
| EndToEnd.ActMoves | src/code/Server.cpp:81-146 | every step of the program makes a session, leaves it as it is, or takes it one step of its own machine; all the server does to a session is to make, start or end it |
| EndToEnd.SessionsAreRuns | src/code/Server.cpp:99-146 | whatever the server and other sessions do, each session lives a run of its own machine |
| EndToEnd.ProxyEndToEnd | src/code/Server.cpp:63-146 | for every client in every run of the program: a login client is connected through under the configured name with no byte lost, duplicated or reordered, with nothing held back where more bytes are awaited, and the upstream server decodes the rewritten handshake from what it received; any other client reaches nobody and hears only what it is due, and all of it when its conversation ends without breaking off; membership is bounded; and a program with nothing left to do is completely shut down |
| EndToEnd.RepliesComplete | src/code/MCPacketReader.cpp:62-127 | in every run of the program a client without a login whose coroutine is over, and was not thrown out of a failed read or write, has been sent all the replies it is due |
| Witnesses.LoginCanRelay | src/code/Session.cpp:12-53 | any login frame, in any spelling the parser accepts, has a run of the program into a live relay that read its frame and not one byte more |
| Witnesses.LateConnectReopens | src/code/Session.cpp:21-35 | any such login frame has a run of the program, with Stop, that leaves a session that was shut down and finished with its upstream socket open |
| Witnesses.StatusCanBeAnswered | src/code/MCPacketReader.cpp:62-127 | any status conversation has a run of the program in which the client is sent the status document and its ping and the session then ends |
| UpstreamSocket.OpensExactly | src/code/Session.cpp:21-35 | the one step that opens the upstream socket of a session that was shut down is the coroutine taking the last byte of a login frame |
| UpstreamSocket.ReopensExactly | src/code/Session.cpp:21-35 | a closed upstream socket of a session that was shut down is open in some later state if and only if such a byte is already queued |
| UpstreamSocket.EndCloses | src/code/Session.cpp:56-73 | the same on the state in which End is called: that is when End does not close the socket for good |

## Left out
- Asio, sockets, DNS, signal delivery and threads: replaced by an environment that completes each outstanding operation once, in any order, successfully or not.
- `Run`, its worker threads and its exit code, and an exception thrown inside a handler of the server: only the call of `Stop` that follows is modelled, by `RequestStop`.
- SystemDrain.SystemDrainBounded: bounds the phase in which every member is shut down. Before that a relay goes on as long as bytes arrive and the scheduler does not run the queued `End`; `RunBounded` bounds that phase by the number of arrivals.
- ClientSession.Session.ResumeHandshake: takes the reader's decision from `Intercept`, the function its methods are proved against, and not from the reader object, because a Dafny method cannot suspend; `InterceptIsOnline` joins the two.
- ClientSession.Session.ResumeRequest: takes the reader's decision from `ScanFrame` in the same way; `ScanIsOnline` joins the two.
- ClientSession.Session.ResumePing: takes the reader's decision from `ScanFrame` in the same way; `ScanIsOnline` joins the two.
- The cost of `Intercept` per byte and the reader's 1024-byte buffer inside the session: the reader object has them, the session machine does not need them.
- The environment of a connect: the endpoint list is one attempt, and a socket that cannot be opened counts as open with a connect that fails.
- The status document: an opaque byte sequence of bounded length (`statusJson`); JSON building, the favicon and the version and player settings are not modelled. The bound is a `requires` of the status methods.
- Option parsing, usage text and `main`: `ValidConfig` states what they establish; host names of 1 to 255 bytes are checked by src/code/ServerConfig.cpp:63-65.
- Logging, exception texts, the choice between log messages, and allocation failure. Setting TCP_NODELAY is one outcome that may fail.
- Real time: a deadline may expire at any step, so the handshake and the connect timeout and the 100 ms of the retry timer are not told apart by their lengths.
- Who owns a session and when it is freed: objects are never freed here.
