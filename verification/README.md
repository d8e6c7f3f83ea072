# FPGA manager link: a Dafny model

A client programs an FPGA and tunnels UART-style "sideband" channels through a
server, over one byte stream. This project models the parts of that link that
carry state and proves what they are for: an image arrives at the backend whole
and once, every endpoint sees its own stream intact, and the codec and the UART
echo lose nothing.

| file | what it models |
|---|---|
| Bytes.dfy | bytes, little-endian 32-bit fields |
| Message.dfy | the growable message buffer and its two cursors |
| Frames.dfy | frames on the wire: sender, receive machine, a reference parser of whole streams |
| Streams.dfy, MsgDataHandler.dfy | short writes, the handler table, the imperative receive machine and sender |
| Sideband.dfy, PollingReceiver.dfy, Mux.dfy | sideband endpoints, the polling byte queue, the dispatch loop |
| Protocol.dfy | requests, how the server reads them, how a file is sliced |
| ServerModel.dfy, Server.dfy | the server as functions with its run invariants, and the server object |
| Transfers.dfy | image transfers: what the buffer holds, and exactly when the image arrives |
| ClientModel.dfy, Client.dfy | the client as functions, and the client object |
| Link.dfy | one direction of the connection: receiver state, bytes on the wire and bytes not yet written as a queue of frames |
| Session.dfy, SessionProof.dfy, SessionTheorems.dfy | both machines, two byte channels, every run |
| Capacity.dfy | the same runs over wires of bounded capacity: deadlock, and when calls complete |
| CallsComplete.dfy | which servers, and which clients of them, never lose a call to a deadlock |
| GivingUp.dfy | what a call that gives up does to the next one |
| ClosedStreams.dfy | sideband streams are closed while the device is programmed |
| SessionCalls.dfy | the session's `program` calls are those of the client object |
| EmptyWrites.dfy | what an empty sideband write does to the next call |
| UUCodec.dfy, UUText.dfy | the text codec, on sequences and as the loops over buffers |
| UUFormat.dfy | the text format character by character and bit by bit |
| Uart.dfy | the UART echo master and the accesses the bus sees |

## How it is put together

Objects the program updates are classes, and their methods are proved against
functions of the old state (`Run`, `Handle`, `Accept`, `ProgramCall`, `Encode`,
`Decode`, `Next`). The theorems are about those functions.

A virtual call into another object is an entry in a log (`calls`, `sent`,
`writes`, `programmed`). What the outside world decides is an argument: how many
bytes each write accepts is a script, what the event loop brings is a list of
turns, what the backend returns is a status, and how bytes are cut on arrival is
a step of the session. A safety theorem for all scripts, turns and steps holds for
all behaviours of the world. Whether a call ends is another matter: in `Session` a
wire takes any number of unread bytes, which no socket does, and both programs
write with blocking writes and read nothing meanwhile. `Capacity` therefore bounds
the wires, and its completion theorems are about the bounded runs.

In `Session` a step is one read by the mux of either side (1 to 4096 bytes), one
write of a sender's loop (any number of the bytes it still has to write), one
read of an open stream in a sideband slot, the start of a client call, the consumption of a
reply, a client write, a registration or a connect. While a side is in its write
loop its other steps are disabled, as the program does nothing else there. The
invariant `Inv` turns the two byte channels into queues of frames and follows the
one outstanding request through them. `CallIsProgramCall` ties the session's calls
to `ProgramCall`, the function the client object's `Program` is proved against.

Since such a function and the method proved against it could be wrong together, what
each function means is stated once more without it: a frame, a request and a line of
text byte by byte (`OnTheWire`, `ProgramOnTheWire`, `LineIs`, `LineDigitsAt`), what an
event of the server leaves alone (`OnlyProgramReachesBackend` and its neighbours), who
is called for a frame (`Delivered`), what ends a wait (`Answers`), when a send stops
(`PushedStops`).

Where two pieces of code disagree with their comments, the code is followed: a
header is six bytes, although its error text says five, and triples are packed
low byte first, which is not the byte order of POSIX uuencode. `message` returns
true for every request, although SHUTDOWN prepares a false.

Some statements hold only under a condition, which is proved to be exact.
`FrameRoundTrip`: a list of frames survives if and only if no payload is empty.
`TransferCompletes`: a transfer stays within the image buffer and reaches the
backend as sent if and only if the server holds no buffer, or an empty one that is
large enough; `TransferAfterRun` says the same of the requests sent before, a
condition the sender can check. After an abandoned transfer it fails: `RetryOverruns`
sends the same file again after a disconnect and a new connect, and the source
writes past the end of the buffer. `EndToEnd` shows that the client's own calls
never cause this. `DecodeThrows`: decoding throws if and only if the last line of
an escaped text has no terminator, ends in a dangling backslash and announces more
symbols than come before it. `StuckIffJammed`: an outstanding call can go on if and
only if not both sides are blocked in their write loops by full wires.
`NoCallLostIff`: in every reachable state the outstanding call can still be carried
to its end if and only if the server has no stream it could come to read, a sideband
stream or one that is open already, and the wire back holds a 7-byte reply. A stream
that is not open is not read, so a server with sideband streams is safe too as long
as its client never has them opened (`ClosedNeverJams`); once one is open,
`JamReachable` blocks any call over wires of any size. `ClosedAtBackendCall`: a
server driven by arbitrary requests programs the device with its sideband streams
closed if and only if the request starts its transfer itself or the requests before
it left the streams off; `ProgramsWithStreamOpen` is a run that does not, and
`ProgrammedWhileClosed` shows that the client's own calls always do.

A call that gives up on a failing turn of the event loop always leaves one request or
reply behind (`GivingUpOwesOne`), and the next call can take that reply for its own
(`NextCallTakesLateReply`). Once nothing is owed, calls are answered for what they ask
(`SettledCallsAreOwn`).

## Model

| member | source | states |
|---|---|---|
| Message.ItemsRoundTrip | src/common/FPGAMgrMsg.cpp:53-135 | any list of bytes, 32-bit fields and blobs put in order is got back by gets of the same types, wherever it sits in the buffer, and the cursor ends right after it |
| Message.CursorStaysInside | src/common/FPGAMgrMsg.cpp:53-73 | no sequence of gets moves the cursor past the bytes put |
| Message.GetsPastTheEnd | src/common/FPGAMgrMsg.cpp:53-73 | a get that lacks bytes yields 0, or copies nothing, and does not move the cursor |
| Bytes.LowByteFirst | src/common/FPGAMgrMsg.cpp:99-116 | 32-bit fields are written low byte first |
| Message.Msg.Put8 | src/common/FPGAMgrMsg.cpp:84-97 | appends one byte to the contents across a reallocation by 1024, as long as the capacity stays within 32 bits |
| Message.Msg.Put32 | src/common/FPGAMgrMsg.cpp:99-116 | appends the four bytes, low byte first, growing by 1024 exactly when they do not fit |
| Message.Msg.Write | src/common/FPGAMgrMsg.cpp:118-128 | appends a block of any size; the capacity stays when there is room and is otherwise, in one step, the least multiple of 1024 that holds it |
| Message.Msg.Read | src/common/FPGAMgrMsg.cpp:130-135 | copies the block and moves the cursor, or with too few bytes left changes neither |
| Message.Msg.Assign | src/common/FPGAMgrMsg.cpp:33-43 | a deep copy: contents, cursors and capacity of the other message in a new array |
| Frames.OnTheWire | src/common/FPGAMgrMsgDataHandler.cpp:90-105 | a frame is 0x5A, the size in four bytes from the lowest on, the endpoint and the payload |
| Frames.FrameRoundTrip | src/common/FPGAMgrMsgDataHandler.cpp:27-119 | a serialised list of frames, fed in any split into chunks, delivers exactly that list and ends between frames, if and only if no payload is empty |
| Frames.PrefixDelivers | src/common/FPGAMgrMsgDataHandler.cpp:55-66 | any prefix of the bytes delivers exactly the frames it contains completely |
| Frames.RunRefinesParse | src/common/FPGAMgrMsgDataHandler.cpp:27-72 | on arbitrary bytes the machine delivers what a parser of the whole stream cuts out (skip to a marker, size field, endpoint, declared size or one byte) and its state is the unfinished rest |
| Frames.ChunkingIrrelevant | src/common/FPGAMgrMsgDataHandler.cpp:27-30 | feeding chunk by chunk equals feeding the concatenation, from any state |
| Frames.EmptyPayloadSwallowsMarker | src/common/FPGAMgrMsgDataHandler.cpp:55-57 | after an empty message the next frame's marker is delivered as a payload, and the receiver goes on as if the other bytes of that frame were a stream; without a marker among them the frame is lost |
| Frames.DeliveriesNonEmpty | src/common/FPGAMgrMsgDataHandler.cpp:55-66 | no input makes the machine deliver an empty message |
| MsgDataHandler.FrameHandler.Write | src/common/FPGAMgrMsgDataHandler.cpp:27-72 | the in-place machine moves as the byte-sequence machine; every call it makes is for a completed frame whose endpoint leads to that handler in the table, and a handler registered for one endpoint alone is called with exactly the frames of that endpoint, in order |
| Streams.DispatchOne | src/common/FPGAMgrMsgDataHandler.cpp:57-66 | a frame goes to the handler at its endpoint's place in the table, or to nobody when there is none |
| Streams.DispatchDelivers | src/common/FPGAMgrMsgDataHandler.cpp:57-66 | the same for a list of frames: no other calls, none left out, in order |
| MsgDataHandler.FrameHandler.Message | src/common/FPGAMgrMsgDataHandler.cpp:85-119 | under every pattern of short writes a prefix of the frame goes out, true is returned exactly when all of it did, and after a short header or a failing write nothing more is written |
| MsgDataHandler.FrameHandler.SetMsgHandler | src/common/FPGAMgrMsgDataHandler.cpp:74-83 | the table grows with null entries and every other registration survives |
| Streams.PushedAll | src/common/FPGAMgrMsgDataHandler.cpp:107-115 | writes that always accept something get the whole payload out |
| Streams.PushedStops | src/common/FPGAMgrMsgDataHandler.cpp:107-115 | the loop gets out what the writes accept together up to the first failing one, and no more than there is |
| Streams.FrameOutStops | src/common/FPGAMgrMsgDataHandler.cpp:101-115 | a header that is not taken whole is all that goes out |
| Streams.FrameOutAll | src/common/FPGAMgrMsgDataHandler.cpp:101-115 | a header taken in one write and payload writes that never fail get the whole frame out |
| Sideband.SidebandHandler.Write | src/common/SidebandDataHandler.cpp:25-33 | bytes of a stream leave as one frame of its endpoint |
| Sideband.SidebandHandler.Message | src/common/SidebandDataHandler.cpp:35-51 | a payload reaches the stream as a prefix, whole exactly when true is returned |
| PollingReceiver.Receiver.Write | src/common/PollingDataReceiver.cpp:50-65 | the queue is extended although the recorded capacity stays 0 |
| PollingReceiver.Receiver.Read | src/common/PollingDataReceiver.cpp:22-47 | hands out what was asked, or all there is when that is less, from the front of the queue, and keeps the rest; only an empty queue makes it wait, past turns that bring nothing, to the first that brings bytes or fails |
| PollingReceiver.FifoPreserves | src/common/PollingDataReceiver.cpp:22-65 | over any interleaving, bytes read followed by bytes cached are all bytes written, in order |
| PollingReceiver.ReadReturnsData | src/common/PollingDataReceiver.cpp:24-30 | a read returns nothing exactly when nothing was asked or the loop failed before any byte came |
| PollingReceiver.WaitEnds | src/common/PollingDataReceiver.cpp:24-28 | a wait ends with the first turn that fails or brings bytes, and those bytes are all it brings |
| PollingReceiver.TakesWhatIsAsked | src/common/PollingDataReceiver.cpp:30-44 | over the queue of the model: no read gives more than was asked, nor less while bytes remain |
| Mux.MuxDemux.RecvAndDispatch | src/common/DataStreamMuxDemux.cpp:36-92 | a turn reads the ready streams in order, at most 4096 bytes each, and hands on the non-empty reads; -1 without a descriptor or on a failing select |
| Mux.DeliveriesNonEmpty | src/common/DataStreamMuxDemux.cpp:80-85 | no handler is called without bytes, or with more than 4096 |
| Mux.OwnStreamOnly | src/common/DataStreamMuxDemux.cpp:76-86 | a handler gets exactly what one read of its own stream returns |
| Mux.DeliveriesOne | src/common/DataStreamMuxDemux.cpp:76-86 | a stream with a descriptor that is selected, bytes and a handler makes one call, and no other stream any |
| Mux.DeliveriesAppend | src/common/DataStreamMuxDemux.cpp:76-86 | streams are served in the order of the lists |
| Protocol.ProgramOnTheWire | src/client/FPGAMgrClient.cpp:106-112 | a request is 1, the total and the size in four bytes each from the lowest on, the last flag between them, and the data |
| Protocol.ParseProgramRequest | src/server/FPGAMgrServer.cpp:171-175 | the server reads back the total, the last flag, the size and the data the client put in |
| Protocol.SlicesAreFile | src/client/FPGAMgrClient.cpp:92-122 | the slices of a file concatenate to it, number at least one, each but the last is 256 KiB, and only the last is flagged last |
| ServerModel.SessionInvariant | src/server/FPGAMgrServer.cpp:282-328 | over every run of a started server, before shutdown, the mux holds the connect stream alone or the client stream and all sidebands with matching handlers; a shutdown request never reverts |
| ServerModel.TablesInOrder | src/server/FPGAMgrServer.cpp:322-327 | endpoint k's stream, data handler and message handler stand at position k |
| ServerModel.OnlyProgramReachesBackend | src/server/FPGAMgrServer.cpp:143-258 | no event but a PROGRAM request touches the image, and none but one flagged last calls the backend, which it does once |
| Transfers.BackendCallsFromHistory | src/server/FPGAMgrServer.cpp:171-205 | over every run of a started server the backend calls are one for each PROGRAM request flagged last, in order, each with the bytes of the PROGRAM requests since the one before |
| ServerModel.OnlyDisconnectEndsSession | src/server/FPGAMgrServer.cpp:212-224 | no request but DISCONNECT touches client, handler table or mux, and DISCONNECT leaves the connect stream alone |
| ServerModel.OnlyShutdownShutsDown | src/server/FPGAMgrServer.cpp:158-169 | a shutdown is asked for by SHUTDOWN alone |
| ServerModel.OnlySidebandsSwitch | src/server/FPGAMgrServer.cpp:260-280 | no event touches slot 0 or a stream that is not of the sideband type, or adds or removes a slot |
| ServerModel.OtherRequestsChangeNothing | src/server/FPGAMgrServer.cpp:242-254 | PING and unknown requests change nothing |
| ServerModel.ConnectAndReap | src/server/FPGAMgrServer.cpp:125-141 | after the clean-up no request is possible; a connect and a clean-up touch nothing but the session |
| ServerModel.ConnectNeedsDisconnect | src/server/FPGAMgrServer.cpp:212-224 | in every run of a started server a DISCONNECT lies between any two connects |
| ServerModel.SidebandStep | src/server/FPGAMgrServer.cpp:159-280 | no event opens an open stream or makes streams and flag disagree; DISCONNECT, SHUTDOWN and the first PROGRAM chunk leave all closed; CONFIG sets the flag to its argument |
| ServerModel.SidebandAgreement | src/server/FPGAMgrServer.cpp:260-280 | over every run of a started server a sideband stream is open exactly when the flag says so, and was never opened twice |
| ClosedStreams.ClosedAtBackendCall | src/server/FPGAMgrServer.cpp:177-190 | after any requests, a request that calls the backend does so with flag and streams closed if and only if it is its transfer's first or the last switching request left them off |
| ClosedStreams.FlagFromHistory | src/server/FPGAMgrServer.cpp:260-280 | in every run the flag is what the last CONFIG, DISCONNECT, SHUTDOWN or transfer-starting PROGRAM request made it |
| ClosedStreams.ProgramsWithStreamOpen | src/server/FPGAMgrServer.cpp:177-190 | connect, first part of a file, CONFIG on, last part: the device is programmed with the file and an open sideband stream |
| ClosedStreams.ProgrammedWhileClosed | src/server/FPGAMgrServer.cpp:177-190 | in every run of client and server all sideband streams are closed while an image is held and at every backend call |
| ServerModel.RepliesMatchRequests | src/server/FPGAMgrServer.cpp:143-258 | the replies of every run are one for each known request, in order, with 0 only for a backend call that failed, and none for unknown ones |
| Transfers.Reassembly | src/server/FPGAMgrServer.cpp:171-199 | over any interleaving of a transfer's chunks with other requests the index stands behind exactly what has arrived, the backend is not called, and with room for it all no chunk leaves the buffer |
| Transfers.TransferCompletes | src/server/FPGAMgrServer.cpp:171-205 | from every state: a transfer fits if and only if there is no buffer yet or it has room behind what it holds; when it fits, the last chunk makes one backend call with the leftover followed by the image and clears the buffer; so it fits and arrives as sent if and only if nothing was left and the buffer is large enough |
| Transfers.TransferAfterRun | src/server/FPGAMgrServer.cpp:143-258 | the same condition over the requests of any run from the start: no PROGRAM request since the last one flagged last carried data or asked for too small a buffer |
| Transfers.ImageFromHistory | src/server/FPGAMgrServer.cpp:171-205 | in every run the buffer has the size the first PROGRAM request since the last flagged one asked for, and its index is the sum of their sizes |
| Transfers.RetryOverruns | src/server/FPGAMgrServer.cpp:171-224 | connect, a non-empty first part of a file, DISCONNECT, connect: sending the file again is a write past the end of the buffer |
| Server.FpgaMgrServer.Message | src/server/FPGAMgrServer.cpp:143-258 | the object's new fields and the reply are the model's for every request, except one that the image buffer has no room for, which is reported exactly then |
| Server.FpgaMgrServer.ProgramDevice | src/server/FPGAMgrServer.cpp:171-205 | a chunk lands behind the earlier ones in the array, an under-supplied one still moves the index, and an overrun is reported exactly when the chunk does not fit |
| Server.FpgaMgrServer.OpenSidebandStreams | src/server/FPGAMgrServer.cpp:271-280 | opens the sideband streams from slot 1 on, once |
| Server.FpgaMgrServer.CloseSidebandStreams | src/server/FPGAMgrServer.cpp:260-269 | closes them, and only if they were open |
| Server.FpgaMgrServer.HandleConnect | src/server/FPGAMgrServer.cpp:295-328 | rebuilds mux and handler table for a client and every sideband slot |
| Server.FpgaMgrServer.InitWaitConnect | src/server/FPGAMgrServer.cpp:282-293 | leaves only the connect stream |
| Server.FpgaMgrServer.SetSidebandStream | src/server/FPGAMgrServer.cpp:75-81 | the slot is set, missing ones become null, the others stay |
| Server.FpgaMgrServer.Reap | src/server/FPGAMgrServer.cpp:125-141 | a shutdown request drops the client and ends the loop |
| ClientModel.ProgramOutcome | src/client/FPGAMgrClient.cpp:102-126 | a call sends the file's requests in order up to the first missing reply, and returns 0 exactly when all were answered and the last answer was 1 |
| ClientModel.AwaitEnds | src/client/FPGAMgrClient.cpp:241-255 | a wait passes turns without a reply and ends with the first that brings one, with its last reply, or with the first that fails |
| ClientModel.AwaitAnswers | src/client/FPGAMgrClient.cpp:241-255 | a wait returns a reply exactly when that reply is what ends it |
| ClientModel.VerdictMeans | src/client/FPGAMgrClient.cpp:129-161 | a call without data returns 0 exactly when its request went out and the reply that ended its wait starts with 1, and else -1 |
| Client.FpgaMgrClient.ConfigSideband | src/client/FPGAMgrClient.cpp:129-161 | sends 4 and the flag, waits serving sidebands, empties the mailbox, and returns 0 exactly then |
| Client.FpgaMgrClient.Program | src/client/FPGAMgrClient.cpp:85-127 | the slicing loop sends those requests, uses those turns, serves the sideband bytes they bring, leaves the mailbox empty and returns that value; a file that cannot be opened changes nothing |
| Client.FpgaMgrClient.Recv | src/client/FPGAMgrClient.cpp:241-255 | waits through turns until the mailbox is full or the link fails, serving sidebands meanwhile, and empties it |
| Client.FpgaMgrClient.Message | src/client/FPGAMgrClient.cpp:216-231 | endpoint 0 fills the one-slot mailbox, others go to their handler or nowhere |
| Client.FpgaMgrClient.Connect | src/client/FPGAMgrClient.cpp:63-75 | a connection comes with a new table that leads only endpoint 0 to the client |
| Client.FpgaMgrClient.End | src/client/FPGAMgrClient.cpp:165-214 | waits for the reply, serving sidebands meanwhile, drops the connection only after one, and returns 0 exactly when it is connected, the request went out and the reply starts with 1; a close without a connection sends nothing |
| Client.FpgaMgrClient.SetSidebandHandler | src/client/FPGAMgrClient.cpp:38-45 | on a connection the endpoint is entered in the frame handler's table and the slot is set; missing entries of both become null, the others stay |
| ClientModel.ReconnectForgets | src/client/FPGAMgrClient.cpp:63-75 | after a new connect handlers registered before get no byte of any frames |
| Link.SendQueues | src/common/FPGAMgrMsgDataHandler.cpp:85-119 | wherever the receiver is in the stream, sending puts one frame at the end of what will be delivered |
| Link.PushKeepsQueue | src/common/FPGAMgrMsgDataHandler.cpp:107-115 | a write of any length changes nothing of what will be delivered |
| Link.SendIsPushes | src/common/FPGAMgrMsgDataHandler.cpp:101-118 | under every script of short writes with which sending succeeds, the writes are non-empty pushes that together put the frame on the wire |
| Link.RecvDequeues | src/common/FPGAMgrMsgDataHandler.cpp:27-72 | receiving any number of bytes takes a front part of that queue |
| SessionTheorems.EndToEnd | src/client/FPGAMgrClient.cpp:85-127 | over every run of client and server, with every pattern of short writes and every cut on arrival, whenever no `program` call is outstanding, the backend was called once for each call made, with exactly its file, the call returned 0 exactly when the backend did, and no image is left |
| SessionTheorems.Reachable | src/server/FPGAMgrServer.cpp:143-258 | the joint invariant holds in every reachable state |
| SessionProof.ServerRecvKeeps | src/server/FPGAMgrServer.cpp:171-199 | every chunk the server receives keeps it, and each request in it fits the image buffer when its turn comes |
| SessionTheorems.LockStep | src/client/FPGAMgrClient.cpp:241-255 | requests sent less replies consumed is 0 or 1, and equals what is on its way and in the mailbox |
| SessionTheorems.MailboxNotOverwritten | src/client/FPGAMgrClient.cpp:216-219 | no reply arrives while the mailbox is full |
| SessionTheorems.NothingFollowsTheEnd | src/server/FPGAMgrServer.cpp:212-224 | a request that ends the session is the last frame of its chunk and of the wire |
| SessionTheorems.ChunksFit | src/common/FPGAMgrMsgDataHandler.cpp:55-57 | no chunk in any reachable state makes a receiver's message outgrow its buffer |
| SessionTheorems.StreamPreserved | src/common/SidebandDataHandler.cpp:25-33 | what came for an endpoint before and after its handler was registered is what was read from its stream, short only by what is on its way, whatever else shares the link |
| SessionTheorems.WritesPreserved | src/client/FPGAMgrClient.cpp:233-239 | the same from client to server |
| SessionTheorems.HandlerGetsItsEndpoint | src/client/FPGAMgrClient.cpp:216-231 | a handler whose endpoint is in the table is written exactly its endpoint's bytes; frames of others, registered or not, do not disturb it |
| SessionTheorems.InternalDecreases | src/client/FPGAMgrClient.cpp:102-122 | every receive, every write of a sender's loop and every consumed reply makes progress in a well-founded order |
| Capacity.StuckIffJammed | src/common/FPGAMgrMsgDataHandler.cpp:107-115 | with a call outstanding and wires of any capacity, a step towards its end is possible if and only if not both sides are in their write loops before full wires; when they are, no step of any kind is ever possible again |
| Capacity.JamReachable | src/common/FPGAMgrMsgDataHandler.cpp:107-115 | for wires of any capacity and any call, a session with an open stream in a slot and a client between calls can run into that state with the call outstanding |
| Capacity.CallCompletes | src/client/FPGAMgrClient.cpp:85-127 | from every state in which the wire to the client holds the sideband frames on their way and one reply, the outstanding call can be carried to its end over bounded wires by a client that takes each reply as it comes |
| CallsComplete.NoCallLostIff | src/common/DataStreamMuxDemux.cpp:54-86 | for a server just started and a wire to it of at least a byte: in every reachable state the outstanding call can be carried to its end if and only if no slot holds a sideband stream or an open one and the wire back holds a reply |
| CallsComplete.ClosedNeverJams | src/common/DataStreamMuxDemux.cpp:54-86 | with no stream open at the start, and no call that opens the sideband streams or none to open, no run jams and from every state it reaches the outstanding call can be carried to its end, over wires that hold a byte up and a reply down |
| CallsComplete.JamOnceOpen | src/server/FPGAMgrServer.cpp:271-280 | with a sideband stream in a slot, the call that opens it can be completed and then a jam reached |
| GivingUp.GivingUpOwesOne | src/client/FPGAMgrClient.cpp:241-255 | a call that returns on a failing turn leaves exactly one request or reply behind |
| GivingUp.NextCallTakesLateReply | src/client/FPGAMgrClient.cpp:241-255 | whatever call gave up, there is a run in which the next `program` call, of any file of one slice, returns what the late reply says while its own request has not reached the server |
| GivingUp.ClaimsUnprogrammed | src/client/FPGAMgrClient.cpp:85-161 | after a configuration call that gave up, `program` can return 0 without a call of the backend |
| GivingUp.SettledCallsAreOwn | src/client/FPGAMgrClient.cpp:85-127 | from any state between calls with the mailbox empty, nothing pending either way and no image left, every `program` call begun later makes one backend call with its file and returns 0 exactly when that does |
| GivingUp.ConnectSettles | src/client/FPGAMgrClient.cpp:63-75 | a new connection with an empty mailbox and no image left is such a state |
| SessionCalls.CallIsProgramCall | src/client/FPGAMgrClient.cpp:85-127 | a `program` call of a session whose client takes each reply as it comes puts the requests of `ProgramCall` on the wire, uses its turns and records its return value |
| SessionCalls.SimpleCallsReturnZero | src/client/FPGAMgrClient.cpp:129-214 | a configuration, close or shutdown call that ends in a session has, with its turns, the return value 0 |
| SessionCalls.SimpleRequests | src/client/FPGAMgrClient.cpp:129-214 | their requests are 4 with the flag, 3 and 2 |
| EmptyWrites.EmptyWriteGarblesCall | src/client/FPGAMgrClient.cpp:233-239 | after a client write of no bytes no next call's request is among the frames the server gets: it gets one sideband byte and what a parser cuts out of the request's frame without its marker |
| EmptyWrites.EmptyWriteLosesCall | src/client/FPGAMgrClient.cpp:233-239 | if that frame holds no 0x5A past its first byte, the call never returns, in any run, and the server never changes |
| EmptyWrites.OnlyProgramHoldsMarkers | src/client/FPGAMgrClient.cpp:129-214 | so it is for every configuration, close and shutdown call |
| UUCodec.CodecRoundTrip | src/common/UUEncDec.cpp:19-153 | decoding an encoding gives the data back, for every byte sequence, plain and escaped |
| UUCodec.DecodeEncodedThen | src/common/UUEncDec.cpp:73-136 | text that starts with an encoding decodes to its data followed by what the rest decodes to |
| UUCodec.CodecConcatenation | src/common/UUEncDec.cpp:73-136 | concatenated encodings decode to concatenated data |
| UUCodec.TerminatorIsFirst | src/common/UUEncDec.cpp:87-95 | no payload, even one ending in escaped backslashes, holds a terminator or completes one early |
| UUCodec.FetchSymbols | src/common/UUEncDec.cpp:138-153 | each escape pair is read as one symbol |
| UUCodec.CombineDigits | src/common/UUEncDec.cpp:103-106 | shifting and or-ing four base-64 digits restores the 24-bit value |
| UUCodec.FirstTerminator | src/common/UUEncDec.cpp:87-95 | in any text a line ends at the first terminator there is |
| UUCodec.DecodeThrows | src/common/UUEncDec.cpp:73-153 | decoding throws if and only if the text is escaped and its last line has no terminator, leaves one backslash when escapes are paired off, and announces more symbols than come before that |
| UUCodec.DecodeSize | src/common/UUEncDec.cpp:83-135 | every other text decodes, to as many bytes as its length characters announce modulo 256; in particular every plain one and every one that does not end in a backslash |
| UUCodec.MissingSymbolsAreSpaces | src/common/UUEncDec.cpp:143-144 | a plain line cut short decodes as if spaces followed |
| UUCodec.LoneBackslashThrows | src/common/UUEncDec.cpp:145-149 | the smallest such texts: a length character and a backslash throw exactly when it announces any bytes |
| UUCodec.LineFits | src/common/UUEncDec.cpp:25-59 | a line with its NUL needs at most 122 of the 128 bytes |
| UUCodec.PlainLength | src/common/UUEncDec.cpp:29-68 | 62 characters a full line, and 2 + 4 * ceil(r / 3) for a remainder r |
| UUCodec.EscapedPayload | src/common/UUEncDec.cpp:51-55 | every quote and backslash of an escaped payload belongs to an escape pair, and undoing the pairs gives the plain payload |
| UUFormat.LineIs | src/common/UUEncDec.cpp:29-68 | a line is its length plus 32, its symbols, and the end of line: 10, or a backslash and an n |
| UUFormat.LinesOf45 | src/common/UUEncDec.cpp:29-30 | longer data is cut after every 45 bytes |
| UUFormat.LineDigitsAt | src/common/UUEncDec.cpp:36-49 | group g of a line holds its bytes 3g to 3g + 2 in six-bit pieces from the lowest bit on; missing bytes count as zero |
| UUFormat.LinePadding | src/common/UUEncDec.cpp:36-49 | read as whole groups, the symbols of a line are its bytes and zeros up to a multiple of three |
| UUFormat.SymbolIs | src/common/UUEncDec.cpp:49-55 | a piece is the character 32 places on, with a backslash before 34 and 92 in the escaped form |
| UUFormat.PlainSymbols | src/common/UUEncDec.cpp:138-153 | in any plain line every character is a symbol, 32 places back modulo 256, and missing ones are 0 |
| UUFormat.EscapedSymbols | src/common/UUEncDec.cpp:138-153 | any escaped line reads as the plain one without the backslash of each pair, followed by the character beyond the line when one dangles |
| UUFormat.AssembleAt | src/common/UUEncDec.cpp:97-126 | byte 3g + r of a decoded line is byte r of its group g of four symbols |
| UUFormat.CombineBits | src/common/UUEncDec.cpp:103-106 | four symbols of any bits are or-ed together six bits apart, each with its sign repeated above bit 7 |
| UUFormat.LineByLine | src/common/UUEncDec.cpp:83-135 | a text is decoded up to its first terminator, as long as its first character says, and then from right after it |
| UUFormat.LastLineIs | src/common/UUEncDec.cpp:83-135 | a last line without a terminator goes to the end of the text |
| UUText.EncodeText | src/common/UUEncDec.cpp:19-71 | the loops through the line buffer produce the encoding, whose characters the rows of UUFormat give, and which decodes to the input |
| UUText.FillLine | src/common/UUEncDec.cpp:32-57 | the buffer holds the line's characters and is never overrun |
| UUText.DecodeText | src/common/UUEncDec.cpp:73-136 | stores each decoded byte once, the stores going in order from index 0, and nothing beyond; with a null buffer it stores nothing and returns the same size |
| Uart.UartResponderMaster.Clock | examples/uart_responder/src/uart_responder/UartResponderMaster.scala:48-186 | the registers after one clock in every state |
| Uart.BitMeans | examples/uart_responder/src/uart_responder/UartResponderMaster.scala:143-170 | the two ready bits are bit 8 and bit 14 of the status word |
| Uart.BusFollowsProtocol | examples/uart_responder/src/uart_responder/UartResponderMaster.scala:48-186 | from reset, under every acknowledge timing and all read data the completed accesses follow the driver's protocol: set-up, poll, read, poll, write the byte read |
| Uart.Handshake | examples/uart_responder/src/uart_responder/UartResponderMaster.scala:103-129 | in every state reached from reset, strobe and cycle are up exactly in the two wait states; a request is held until its acknowledge and down in the next cycle |
| Uart.AccessInThreeCycles | examples/uart_responder/src/uart_responder/UartResponderMaster.scala:131-185 | in every state reached from reset, of any three cycles with an acknowledge one completes an access |
| Uart.SetUpFirst | examples/uart_responder/src/uart_responder/UartResponderMaster.scala:59-101 | the four set-up writes come first, in order, and no other register is ever written after them |
| Uart.ReadyBeforeAccess | examples/uart_responder/src/uart_responder/UartResponderMaster.scala:131-185 | each receive read and each transmit write directly follows a status read with its ready bit set |
| Uart.ExactEcho | examples/uart_responder/src/uart_responder/UartResponderMaster.scala:117-185 | in every run from reset the words sent are the bytes received, in order, short at most by the one in the data register |
| Uart.CountsEchoes | examples/uart_responder/src/uart_responder/UartResponderMaster.scala:169-181 | in every run from reset the counter is the number of echo writes issued modulo 65536 |

## Left out

- Sockets, `select`, descriptors, address lookup, terminals and printing; streams are byte sequences with scripts, and a read or write never returns a negative count.
- In the session writes may be short, even within a header, where the program would give up, but none fails; what a sender does when one fails is the contract of `FrameHandler.Message`.
- A client write of no bytes is not a step of the session, because what the session promises does not hold after one: `EmptyWriteGarblesCall` and `EmptyWriteLosesCall` show what does. What the server does with the frames found inside a `program` request is not followed further.
- The server deletes the frame handler whose receive loop is still running on DISCONNECT; the model changes the session and `NothingFollowsTheEnd` shows that no frame is left in that chunk.
- Callbacks from inside `FPGAMgrMsgDataHandler::write` are logged and acted on after the chunk, and the loop of the mux does not see its lists change under it; a connect in mid-loop is not modelled.
- Recovery from a link that breaks in the session: a zero-length read is ignored by the program, so nothing is claimed about it.
- SessionTheorems.EndToEnd: its runs have no empty client write (`EmptyWriteGarblesCall`) and no call that gives up on a failing turn of the client's event loop (`NextCallTakesLateReply`); after either it does not hold.
- A client that writes to an endpoint after it has asked to close or shut down; its bytes would reach a server that has left the session.
- A file that changes size while it is sent, or of 2^32 bytes and more.
- Server.FpgaMgrServer.Message: requires what the program relies on without checking, no holes in the sideband table from slot 1 on; and says nothing of the fields and the reply after a chunk for which the image buffer has no room, because the source then copies past its end, or, when the message is shorter than it declares, moves the index past it. `ServerRecvKeeps` proves that no request of the client is one.
- Server.FpgaMgrServer.ProgramDevice: the same after such a chunk.
- MsgDataHandler.FrameHandler.Write: requires that the message being assembled stays below 2^32 - 1024 bytes, the capacity the buffer can count; `ChunksFit` proves it for every reachable state of the session.
- UUText.DecodeText: a `char` is taken as signed, so symbols of 128 and more, which no encoding contains, are sign-extended as on x86.
- Client.FpgaMgrClient.SetSidebandHandler: requires a connection, as do all calls but `close` and a `program` whose file cannot be opened; the program goes through a pointer that only `connect` sets. A second connect without a close is not modelled.
- Streams whose open fails; every open succeeds.
- Self-assignment of a message.
- `CycloneVBackend`, the character, serial and socket streams, the printing handler, the command-line programs and the file under src/common/sav, which is not built; they would only add easy members.
- The UART core, the bus fabric and the test bench; the bus slave is any sequence of acknowledges and 32-bit data.
