# Debug protocol and trace engine model

A Dafny model of a remote debug client: the CoreSight Wire Protocol (message buffer, command
encoders, batches, framing, a server that parses and answers, response matching, session
counting, the sorting of asynchronous messages), the memory commands of the command-line utility,
the USB transfer bookkeeping under it, and the streaming-trace buffer engine with the utility's
capture loop. Every result below is proved for all inputs and all runs that its contract names.

Integers are unbounded in Dafny; 32- and 64-bit truncation, sign extension and the server's
32-bit shifts are written out. Objects whose fields the program updates are classes; each of their
methods is tied to a function of the old state, and the protocol-level results are lemmas about
those functions. What the outside world decides is a parameter: results of sends and receives,
libusb's callbacks and refusals, what a transport finishes and in which order, and what a command
handler of the server does.

| files | what they hold |
|---|---|
| Bytes, Varint, Fields, CswpBuffer | integers, varints, typed fields, the client's message buffer |
| Commands, DummyServer, Responses | requests and their encoders, the server's parser, its command loop and replies |
| Matching, CswpClient, EndToEnd | response matching, the client object, a batch through both programs |
| FrameSorter, Session | response and async queues, init and term counting |
| MemorySplit, MemoryCost, MemoryChunks, Capacity, MemoryWire, FillWire, DumpWire | splitting, its cost in the request buffer, chunk loops, reply sizes, chunks, whole fills and whole dumps on the wire |
| UsbDevice | transfer queues of the USB device |
| TraceEngine, TraceContents, StreamingTrace | the buffer engine as a step system, what its buffers hold, and as an object |
| TraceLink | the engine on the USB device |
| CaptureLoop, Capture | the capture utility together with the engine, and as an object |

Some results are about what the code does not do, each with the exact condition under which it
does: the server reads varints only below 2^31 (`Varint.ServerRoundTrip`); a fill that is accepted
can be sent only when its last chunk passes a size test (`MemoryCost.FillSendsWhen`,
`MemoryCost.FillTooLong`, `MemoryChunks.FillDevMem`); with several endpoints a queued transfer can be
filed under the wrong one (`UsbDevice.HomedWhen`, `UsbDevice.Misfiled`), which never happens to a
client that keeps within the device's sixteen places (`UsbDevice.RunTidy`), as the trace engine does
with its eleven buffers and one control request (`TraceLink.RunLinked`); a server can see a TERM
alone (`Session.TermsAnswered`); a detach leaves transport tokens behind unless all pending
transfers finish before anything out of turn (`TraceEngine.DetachExact`,
`TraceEngine.CancelledControlBreaks`), and then the next session completes nothing
(`TraceEngine.StaleSession`); a detach that finds the data thread waiting cancels nothing before the
thread has gone, and so comes back only when a transfer finishes by itself
(`TraceEngine.DetachReturns`); a session behind a clean detach first hands on what the one before it
left (`TraceEngine.LeftoversFirst`); and a detached sink refuses buffers only if its data thread had ended
before the detach (`TraceEngine.DetachedStillAccepts`). The comment at
client_utility/ccu_cswp.cpp:952-957 gives 16372 bytes as the largest transfer; the constant in
client_utility/include/ccu_in.h:48 is 16352, and the constant is what is modelled. The comment in
client_utility/ccu_cswp.cpp:835-841 says device 0 never reaches the small pieces; the split is proved
for requests where it does as well. `cswp_batch_begin` offers a mode that continues after an error,
but the server cancels the rest of the batch in either mode
(client_utility/dummy_server_main.cpp:1285-1289), and the client stops matching at the first error
in either mode.

## Model

| member | source | states |
|---|---|---|
| `Varint.ClientRoundTrip` | client/cdebug/cswp_buffer.c:84-178 | Every 64-bit value takes at most ten bytes and comes back through the client reader with its length, whatever follows it. |
| `Varint.EncodeLength` | client/cdebug/cswp_buffer.c:88-97 | A varint has at most k bytes exactly when its value is below 128^k. |
| `Varint.EncodeVarint` | client_utility/dummy_server_main.cpp:234-242 | The server encoder produces byte for byte the encoding the client writes, although it tests and masks differently. |
| `Varint.ProcessIncomingVarint` | client_utility/dummy_server_main.cpp:362-375 | The server reader returns the accumulator built with 32-bit shifts, and says when it would leave the message or shift past an int. |
| `Varint.ServerRoundTrip` | client_utility/dummy_server_main.cpp:362-375 | The server recovers a value and its length if and only if the value is below 2^31. |
| `Varint.ServerFiveBytes` | client_utility/dummy_server_main.cpp:369-370 | Every five-byte group whose value is 2^31 or more is read as a different value. |
| `Bytes.Int32Is` | client/cdebug/cswp_client.c:266-274 | A 64-bit code becomes the one `int` that differs from it by a multiple of 2^32. |
| `Bytes.ToU64Is` | client_utility/dummy_server_main.cpp:336-355 | A negative code becomes 2^64 minus its magnitude, any other itself. |
| `Fields.RoundTrip` | client/cdebug/cswp_buffer.c:49-210 | Any list of typed fields put in order and read in the same order returns the same values and consumes exactly the bytes written, on the client or the server side, whatever follows. |
| `Fields.GetPut` | client/cdebug/cswp_buffer.c:49-210 | The same for one field of each type, including a string whose length just fits the reader's room. |
| `Fields.GetAllAppend` | client_utility/dummy_server_main.cpp:444-632 | Reading two lists of fields one after the other is reading their concatenation, failures included. |
| `CswpBuffer.Buffer.PutUint8` | client/cdebug/cswp_buffer.c:49-55 | Appends one byte if and only if they fit; otherwise reports a full buffer and changes nothing. |
| `CswpBuffer.Buffer.PutUint32` | client/cdebug/cswp_buffer.c:57-67 | Appends four bytes, least significant first if and only if they fit; otherwise reports a full buffer and changes nothing. |
| `CswpBuffer.Buffer.PutUint64` | client/cdebug/cswp_buffer.c:69-82 | Appends eight bytes, least significant first if and only if they fit; otherwise reports a full buffer and changes nothing. |
| `CswpBuffer.Buffer.PutVarint` | client/cdebug/cswp_buffer.c:84-102 | Appends a varint, its length computed before anything is written if and only if they fit; otherwise reports a full buffer and changes nothing. |
| `CswpBuffer.Buffer.PutData` | client/cdebug/cswp_buffer.c:118-125 | Appends raw bytes if and only if they fit; otherwise reports a full buffer and changes nothing. |
| `CswpBuffer.Buffer.PutString` | client/cdebug/cswp_buffer.c:104-116 | Succeeds if and only if length and bytes fit; a string whose length alone fits leaves exactly its length behind. |
| `CswpBuffer.Buffer.GetUint8` | client/cdebug/cswp_buffer.c:127-132 | Reads a byte and moves past it, or reports an empty buffer and stays. |
| `CswpBuffer.Buffer.GetUint32` | client/cdebug/cswp_buffer.c:134-144 | Reads a 32-bit word and moves past it, or reports an empty buffer and stays. |
| `CswpBuffer.Buffer.GetUint64` | client/cdebug/cswp_buffer.c:146-160 | Reads a 64-bit word and moves past it, or reports an empty buffer and stays. |
| `CswpBuffer.Buffer.GetDirect` | client/cdebug/cswp_buffer.c:196-202 | Reads a block in place and moves past it, or reports an empty buffer and stays. |
| `CswpBuffer.Buffer.GetVarint` | client/cdebug/cswp_buffer.c:162-178 | The byte loop computes the 64-bit value of the group; an input that ends inside it leaves the cursor at the end. |
| `CswpBuffer.Buffer.GetString` | client/cdebug/cswp_buffer.c:180-194 | Copies and terminates the string exactly when it is complete and fits with its terminator; says which of the two failed and leaves the array alone otherwise. |
| `CswpBuffer.PutThen` | client/cdebug/cswp_client_commands.c:26-35 | A run of checked puts behaves as one put of the concatenation: all or a prefix with a full buffer. |
| `Commands.EncodeCommand` | client/cdebug/cswp_client_commands.c:26-313 | Every checked command encoder appends type and arguments exactly when they fit, and otherwise leaves a prefix. |
| `Commands.EncodeRegWrite` | client/cdebug/cswp_client.c:1044-1049 | A register write succeeds exactly when its header fits; it then holds the header and each register number and value that still fitted, the others dropped, and is complete whenever all of it fits. |
| `Commands.LooseFits` | client/cdebug/cswp_client.c:1046-1049 | The unchecked puts leave the complete list behind if and only if there is room for all of it. |
| `DummyServer.ProcessIncomingData` | client_utility/dummy_server_main.cpp:431-634 | The offset-advancing parser computes the request the grammar defines, with every branch and every way to run off the message. |
| `DummyServer.ProcessCommand` | client_utility/dummy_server_main.cpp:444-632 | One turn of its loop: type, device, argument position, arguments and how far it moves; unknown types end it. What this is for a command of the client, field by field, is `DummyServer.ParseOne`. |
| `DummyServer.ParseOne` | client_utility/dummy_server_main.cpp:448-632 | A command the client encodes is parsed to an entry with the protocol's number for it, the device it is for (-1 for session commands) and every argument in the protocol's order, the arguments beginning right behind the type, and the parser moves exactly behind it, whatever follows. |
| `DummyServer.ParseFrame` | client_utility/dummy_server_main.cpp:431-634 | From any frame the client can build out of commands with varints below 2^31 the server recovers total, mode and every command in order with its device and arguments, and stops exactly at the total. |
| `DummyServer.UnknownEnds` | client_utility/dummy_server_main.cpp:444-632 | A command type the parser has no branch for ends it: the commands in front of it are parsed, nothing behind it is looked at, however many were announced. |
| `Commands.AllBytesSnoc` | client/cdebug/cswp_client.c:286-320 | Commands encoded one behind the other are the concatenation of their encodings: no gap and no overlap. |
| `Responses.Server.ResponseAdd` | client_utility/dummy_server_main.cpp:319-331 | The response buffer stays the concatenation of the responses and their count. |
| `Responses.Server.ResponseErr` | client_utility/dummy_server_main.cpp:336-355 | An error response is the type and the code, a negative one counted down from 2^64, with no message. |
| `Responses.Server.ResponseSend` | client_utility/dummy_server_main.cpp:291-314 | What leaves is the reply frame of all responses, or nothing when there is none; the buffer is empty again. |
| `Responses.Server.RunCommands` | client_utility/dummy_server_main.cpp:1273-1297 | The loop answers every command once, with what its handler did or as cancelled, and stops running exactly when a TERM was among them. |
| `Responses.RunToStop` | client_utility/dummy_server_main.cpp:1275-1296 | In a nonzero error mode the first command that fails or is a TERM ends the handlers' work: the responses up to it are their own, and all later ones say cancelled. |
| `Responses.RunCancelled` | client_utility/dummy_server_main.cpp:1278-1289 | Once cancelled, every further command is answered as cancelled. |
| `Responses.RunThrough` | client_utility/dummy_server_main.cpp:1273-1297 | In mode 0 failures stop nothing: every response is the command's own up to the first TERM, and all later ones say cancelled. |
| `Matching.MatchPrefix` | client/cdebug/cswp_client.c:257-281 | On any reply acceptable up to its k-th response and refused there, the client counts exactly k, returns the refusal's code (or success), and has run the completion functions of those k alone. Refused are: a wrong type; an error, with or without a message string; a body with too much data, cut short, or undecodable. |
| `Matching.ReceiveReply` | client/cdebug/cswp_client.c:325-372 | A reply frame passes the length and count checks, and what is matched is its responses. |
| `Matching.ReceiveRefuses` | client/cdebug/cswp_client.c:339-360 | A reply that claims to be longer than what was received, or does not hold as many responses as commands were sent, is refused as a whole with the size error; any other is matched, even one that claims to be shorter. |
| `Matching.VerifyAccepts` | client/cdebug/cswp_client.c:257-281 | A response of the right type without error whose body fits is consumed exactly and its body handed to the caller. |
| `Matching.VerifyRefuses` | client/cdebug/cswp_client.c:266-274 | Each of these refusals, with its code, and whatever bytes follow a wrong type. |
| `Matching.ReadMemoryCut` | client/cdebug/cswp_client.c:1073-1082 | A read that returns more than was asked for is cut to size and reported. |
| `Matching.StringTooLong` | client/cdebug/cswp_buffer.c:180-194 | A string as long as the reader's room, or longer, behind whatever fields were read, refuses the response with an output overflow. |
| `Matching.Match` | client/cdebug/cswp_client.c:360-369 | The number of good responses never exceeds the pending list, and the result is success exactly when all were good. |
| `CswpClient.Client.PrepCmdData` | client/cdebug/cswp_client.c:237-250 | Outside a batch the request starts over behind space for the header; inside one nothing changes. |
| `CswpClient.Client.Enqueue` | client/cdebug/cswp_client.c:158-180 | Adds one pending response for each successfully encoded command, so that in an open batch count and pending list agree and the buffer holds exactly the commands; says when a command does not fit. |
| `CswpClient.Client.BatchBegin` | client/cdebug/cswp_client.c:574-585 | Opens an empty batch in the chosen mode; inside a batch it changes the mode and keeps what is queued. |
| `CswpClient.Client.TransactSend` | client/cdebug/cswp_client.c:286-320 | The header is written in place directly in front of the commands, so that the bytes sent are the request frame, its mode byte 0 outside a batch, 1 in a continuing and 2 in an aborting one. |
| `CswpClient.Client.TransactReceive` | client/cdebug/cswp_client.c:325-372 | Count, result and outputs are those of the received bytes under the matching rules, including the two size errors. |
| `CswpClient.Client.MatchResponses` | client/cdebug/cswp_client.c:360-369 | The loop over the pending list computes the matching function. |
| `CswpClient.Client.VerifyResponse` | client/cdebug/cswp_client.c:257-281 | One response: type, error and completion checked in order; the cursor ends behind it when it is good. |
| `CswpClient.Client.MemReadComplete` | client/cdebug/cswp_client.c:1060-1085 | The read completion hands out the data, cut to the caller's room. |
| `CswpClient.Client.DecodeBody` | client/cdebug/cswp_client_commands.c:37-48 | A run of checked gets returns the fields, or the code of the first that fails. |
| `CswpClient.Client.Transact` | client/cdebug/cswp_client.c:379-400 | One frame is sent; a send that fails gives its code and leaves the counter, a receive that fails gives its code and a count of zero, and otherwise the reply is matched; the pending list ends up empty. |
| `CswpClient.Client.Call` | client/cdebug/cswp_client.c:418-428 | Inside a batch a call only queues; outside it sends one frame with mode 0 and one command and returns what came of it. A command that does not fit sends nothing, except a register write, whose header may fit although its registers do not. |
| `CswpClient.Client.BatchEnd` | client/cdebug/cswp_client.c:590-601 | Sends the whole batch as one frame with the byte of its mode, or nothing when it is empty, leaving the caller's counter alone; the mode is none again. |
| `EndToEnd.BatchOutcome` | client/cdebug/cswp_client.c:325-400 | Through frame, parser, command loop, reply and matching: the operations counted are exactly the commands before the server's first failure, or up to the first TERM; the result is the failure's code, or cancelled for what stands behind a TERM; and exactly the counted commands' bodies reach the caller. |
| `EndToEnd.SingleOutcome` | client/cdebug/cswp_client.c:413-423 | A single command of any type returns what its handler did. |
| `EndToEnd.ServeFrame` | client_utility/dummy_server_main.cpp:1267-1297 | The server runs the client's commands in order, in the client's mode. |
| `FrameSorter.PeekDecides` | client/cdebug/cswp_client_plat_if.cpp:183-189 | A frame that fits the read buffer is taken for an async message exactly when it holds fewer than 128 responses and the first is one. |
| `FrameSorter.SortsFrames` | client/cdebug/cswp_client_plat_if.cpp:183-199 | Whatever sequence of frames arrives, each queue gets exactly the frames of its kind in their order. |
| `FrameSorter.PickPartition` | client/cdebug/cswp_client_plat_if.cpp:191-198 | Both queues together are all arrivals, each as often as it arrived, and each queue holds its own kind only. |
| `FrameSorter.Sorter.Listen` | client/cdebug/cswp_client_plat_if.cpp:167-200 | One completed transfer: sorted, ignored when cancelled or empty, the end of the thread otherwise. |
| `FrameSorter.Sorter.Receive` | client/cdebug/cswp_client_plat_if.cpp:221-263 | Hands out the oldest response frame; times out when there is none, and throws once the read thread has ended even if frames are queued. |
| `FrameSorter.Sorter.ReceiveAsync` | client/cdebug/cswp_client_plat_if.cpp:271-291 | Hands out the oldest async frame or says there is none. |
| `Session.OrderlyRun` | client/cdebug/cswp_client.c:467-569 | With successful exchanges and never more terms than inits, the handle count is the balance, the server sees complete sessions in sequence and an open one exactly while the count is positive, and the cache holds its opening answer. |
| `Session.SentAtTheEdges` | client/cdebug/cswp_client.c:482-515 | INIT is sent exactly on 0 to 1 and TERM exactly on 1 to 0. |
| `Session.NestedAnswers` | client/cdebug/cswp_client.c:482-488 | A nested init returns protocol and version of the opening answer and the first bytes of its ID, as many as there are and fit with a terminator. |
| `Session.TransportPaired` | client/cdebug/cswp_client.c:491-525 | In any sequence of inits and terms, whatever fails, the transport is connected only when it is not, used only when it is, and left connected exactly while handles are held. |
| `Session.TermsAnswered` | client/cdebug/cswp_client.c:531-569 | With successful exchanges, every TERM the server sees has its INIT directly in front of it if and only if no prefix of the calls holds more terms than inits: a term without an init sends a TERM alone. |
| `Session.InitAnswered` | client/cdebug/cswp_client.c:445-462 | A server that answers an INIT as it should opens the session with what it said. |
| `Session.Handle.Init` | client/cdebug/cswp_client.c:467-526 | Does to count, cache and transport what the session step says; a nested call copies the cached answer, its ID cut to fit; the first sends one INIT frame exactly when it fits. |
| `Session.Handle.Term` | client/cdebug/cswp_client.c:531-569 | The same for term: one TERM frame exactly on the last handle or on none. |
| `MemorySplit.CreateMemSubreqs` | client_utility/ccu_cswp.cpp:820-852 | Fills the array of four with the split of any request, on any device, without overrunning it. |
| `MemorySplit.PiecesTile` | client_utility/ccu_cswp.cpp:820-852 | The pieces cover the range in order without gap or overlap, buffer offsets keeping pace, each a multiple of its access width. |
| `MemorySplit.PiecesFew` | client_utility/ccu_cswp.cpp:820-852 | There are at most four pieces, for every address, size and device. |
| `MemorySplit.PiecesAligned` | client_utility/ccu_cswp.cpp:820-852 | If the start is as aligned as the size demands, every piece starts at a multiple of its access width. |
| `MemorySplit.PiecesWidest` | client_utility/ccu_cswp.cpp:826-849 | Each piece is made of the widest accesses the rest of the range has room for (eight bytes only off device 0), and of as many of them as there is room for. |
| `MemorySplit.WidthsAre` | client_utility/ccu_cswp.cpp:826-849 | The access sizes stand for one, two, four and eight bytes. |
| `MemorySplit.ValidatedFits` | client_utility/ccu_in.cpp:142-169 | Every request the command line lets through, with the rounding up on device 0, is that aligned. |
| `MemorySplit.ChunkFits` | client_utility/ccu_cswp.cpp:960-973 | Cutting off a full chunk keeps the alignment. |
| `MemoryChunks.WriteTiles` | client_utility/ccu_cswp.cpp:1008-1019 | Writing the pieces of any tiling of a range is one plain write of the range. |
| `MemoryChunks.ReadTiles` | client_utility/ccu_cswp.cpp:878-888 | Reading them is one plain read. |
| `MemoryChunks.DumpAfterFill` | client_utility/ccu_cswp.cpp:940-1112 | However the same range is cut for writing and reading, what was filled is what is dumped. |
| `MemoryChunks.ExecuteGetDevMemOut` | client_utility/ccu_cswp.cpp:860-899 | The read loop places each piece's data at its own offset and makes exactly the pieces' accesses. |
| `MemoryChunks.ExecuteSetDevMemOut` | client_utility/ccu_cswp.cpp:989-1030 | The write loop likewise; when the pieces do not fit the request buffer it reports a full buffer and writes nothing. |
| `MemoryChunks.DumpDevMem` | client_utility/ccu_cswp.cpp:941-981 | The dump returns exactly the memory of the range, leaves the rest of the buffer alone, and makes only aligned whole accesses. |
| `MemoryChunks.FillDevMem` | client_utility/ccu_cswp.cpp:1072-1112 | The fill succeeds if and only if its last, partial chunk passes the size test, and the range then holds exactly the data; otherwise it reports a full buffer, and exactly the full chunks in front of the last were written. Every other byte is unchanged, and all accesses are aligned and whole. |
| `MemoryChunks.FillThenDump` | client_utility/ccu_cswp.cpp:940-1112 | The two commands in sequence return what the fill wrote, and behind it the old contents. |
| `MemoryCost.WriteChunkFits` | client_utility/ccu_cswp.cpp:989-1030 | A write chunk fits the request buffer if and only if it is for device 0 or its size plus fourteen for each odd piece is at most 16354. |
| `MemoryCost.FullChunkSpare` | client_utility/include/ccu_in.h:45-48 | A full chunk is one piece and leaves exactly two bytes of the request buffer. |
| `MemoryCost.FillSendsWhen` | client_utility/ccu_cswp.cpp:1089-1105 | Every chunk of a fill fits the request buffer if and only if one number does: the size of the last, partial chunk plus fourteen for each of its odd pieces is at most 16354. |
| `MemoryCost.FillTooLong` | client_utility/ccu_in.cpp:200-209 | A file of 16351 bytes passes validation for device 1, its only chunk does not fit the request buffer, and it cannot be sent. |
| `Capacity.ReadReplyFits` | client_utility/ccu_cswp.cpp:952-957 | The reply to every read chunk fits the response buffer. |
| `MemoryWire.ExecuteSetOverClient` | client_utility/ccu_cswp.cpp:989-1030 | On the client: one frame with all pieces in aborting mode (or a plain call for one piece) exactly when they fit; otherwise a full buffer, nothing sent, and for several pieces the batch left open. |
| `MemoryWire.WriteChunkOverWire` | client_utility/ccu_cswp.cpp:989-1030 | The frame of a write chunk is parsed to one write for each piece, with the chunk's device and the piece's own address, size, access width and bytes; performing them is one plain write of the chunk's range of that device, and touches nothing else. |
| `MemoryWire.ReadChunkOverWire` | client_utility/ccu_cswp.cpp:860-899 | A read chunk is parsed to one read for each piece, with the chunk's device and the piece's own address, size and access width; answered from that device's memory it comes back whole and leaves a plain read of the range in the caller's buffer. |
| `FillWire.FillOverWire` | client_utility/ccu_cswp.cpp:1089-1105 | All frames of a fill, parsed and performed in order by a server, are one plain write to the device of the fill: of the whole range when every chunk fits, and otherwise of exactly the full chunks in front of the last. No other device is touched, and on a range aligned as validation demands every access is whole and aligned. |
| `FillWire.FillOverClient` | client_utility/ccu_cswp.cpp:1089-1105 | The loop through the client, every exchange a success: exactly those frames go out, and a chunk that does not fit is reported as a full buffer and leaves its batch open. |
| `DumpWire.ExecuteGetOverClient` | client_utility/ccu_cswp.cpp:860-899 | On the client: one frame with all pieces in aborting mode (or a plain call for one piece); the result is that of the exchange, and each output lands at its own piece's offset. |
| `DumpWire.DumpOverWire` | client_utility/ccu_cswp.cpp:958-975 | All chunks of a dump, requested, answered by a server from the memories of its devices and received in turn, are one plain read of the range from the memory of the device asked for. |
| `DumpWire.DumpOverClient` | client_utility/ccu_cswp.cpp:958-975 | The loop through the client, each frame it sends answered by such a server: one frame per chunk goes out, the result is a success, and the caller's buffer holds the range of that device's memory and is unchanged elsewhere. |
| `UsbDevice.StepKeeps` | client/plat_usb_if/usb_device_linux.cpp:180-296 | Every submit, completion, cancel and return, on any endpoints and whatever libusb refuses, keeps the counter equal to the deque sizes, each deque within sixteen, and each token in exactly one place. |
| `UsbDevice.RunKeeps` | client/plat_usb_if/usb_device_linux.cpp:427-554 | The same over all runs. |
| `UsbDevice.RunOrdered` | client/plat_usb_if/usb_device_linux.cpp:521-554 | On one endpoint and without refusals: in flight then queued is in token order, and a queue means a full deque, for any completion order. |
| `UsbDevice.RecognisedWhen` | client/plat_usb_if/usb_device_linux.cpp:525-540 | A transfer in flight is recognised when it completes if and only if it is filed under its own endpoint; filed elsewhere it stays in flight for good. |
| `UsbDevice.RefillTakes` | client/plat_usb_if/usb_device_linux.cpp:542-553 | Filling up moves a prefix of the queue, as many as there is room for and libusb takes, and drops at most the one it refuses. |
| `UsbDevice.HomedWhen` | client/plat_usb_if/usb_device_linux.cpp:542-553 | Transfers stay under their own endpoints through a completion if and only if the first queued ones, as many as there will be room for, were meant for the endpoint that completes. |
| `UsbDevice.RunTidy` | client/plat_usb_if/usb_device_linux.cpp:427-554 | In any run on any endpoints in which no submission finds its endpoint's sixteen places taken : nothing is ever queued, every transfer is under its own endpoint, and every completion is recognised. |
| `UsbDevice.Misfiled` | client/plat_usb_if/usb_device_linux.cpp:542-553 | A run from a fresh device, with two endpoints, after which a queued transfer is filed under the wrong one and its completion is not recognised. |
| `UsbDevice.CancelPending` | client/plat_usb_if/usb_device_linux.cpp:180-201 | Cancelling completes what is queued, in order and as cancelled, leaves what is in flight, and keeps the number of pending transfers. |
| `UsbDevice.PendingMeans` | client/plat_usb_if/usb_device_linux.cpp:170-174 | The count of pending transfers is that of those handed out and neither returned nor dropped because libusb refused them. |
| `UsbDevice.PendingFalls` | client/plat_usb_if/usb_device_linux.cpp:170-174 | A return lowers it by one; a completion by the transfer libusb refused, if any. |
| `UsbDevice.OrderedDrained` | client/cstrace/cstrace_plat_if.cpp:289-294 | On one endpoint nothing completed and nothing in flight means nothing pending. |
| `UsbDevice.Device.SubmitTransfer` | client/plat_usb_if/usb_device_linux.cpp:427-468 | Spends a token in every case, and puts the transfer in flight or in the queue unless it is invalid or refused. |
| `UsbDevice.Device.TransferComplete` | client/plat_usb_if/usb_device_linux.cpp:521-554 | Moves the transfer to the completed queue if it is found and fills the deque up from the queue until it is full or libusb refuses. |
| `UsbDevice.Device.CancelTransfers` | client/plat_usb_if/usb_device_linux.cpp:180-201 | All queued transfers complete as cancelled, in order. |
| `UsbDevice.Device.RotateFor` | client/plat_usb_if/usb_device_linux.cpp:235-248 | A full miss leaves the completed queue in its order; a hit takes out the first transfer with the token and only rotates the others. |
| `UsbDevice.Device.CompleteTransfer` | client/plat_usb_if/usb_device_linux.cpp:264-296 | With something completed, returns the oldest completed transfer without waiting; otherwise waits, and returns -1 exactly when nothing is completed or in flight. |
| `UsbDevice.Device.PendingTransfers` | client/plat_usb_if/usb_device_linux.cpp:170-174 | The sum over counters and queues is the number of transfers handed out, neither returned nor dropped. |
| `UsbDevice.Drain` | client/cstrace/cstrace_plat_if.cpp:289-294 | The drain loop ends; unless libusb stops calling back, with nothing completed and nothing in flight. |
| `TraceLink.RunLinked` | client/plat_usb_if/usb_device_linux.cpp:427-554 | In every run of the engine on the device, with a window of at most sixteen and libusb completing each endpoint's transfers in order: no submission finds its endpoint full, and what each endpoint has outstanding is the engine's line of data tokens, and its control request. |
| `TraceLink.HandedInTurn` | client/plat_usb_if/usb_device_linux.cpp:203-296 | So every transfer handed to the waiting thread is the control request or the one for the front buffer, and carries the status libusb completed it with, translated. |
| `TraceLink.NeverNothing` | client/plat_usb_if/usb_device_linux.cpp:264-272 | While the thread waits, the device has something completed or in flight: the answer -1 for nothing to wait for, which would end the thread, is never given. |
| `TraceLink.RunInOrder` | client/cstrace/cstrace_usb.cpp:114-177 | From a stop on, the engine's part of such a run is in order: what `TraceEngine.Delivers` asks of the transport follows. |
| `TraceLink.DiscardFollows` | client_utility/ccu_cswp.cpp:1321-1331 | And so does what `CaptureLoop.DiscardEnds` asks of it. |
| `TraceLink.AttachLinked` | client/cstrace/cstrace_plat_if.cpp:249-294 | An attach that finds nothing pending on the device, the first or one behind a detach whose drain loop has come to its end, starts such runs. |
| `TraceEngine.RunKeeps` | client/cstrace/cstrace_base.cpp:241-392 | In every state of an attach session, the first or a later one, with or without tokens of earlier sessions still to be taken, under any interleaving: returned, completed, pending and queued data tokens are the submission order (likewise event tokens), transport tokens run in step with pending buffers, the window bound holds, and while active nothing is queued unless the window is full. |
| `TraceEngine.StepKeeps` | client/cstrace/cstrace_base.cpp:241-392 | Each lock-held step keeps that. |
| `TraceEngine.EachOnce` | client/cstrace/cstrace_base.cpp:241-392 | Every token handed out for a buffer is in exactly one of returned, completed, pending, queued and event. |
| `TraceEngine.AllKeeps` | client/cstrace/cstrace_base.cpp:558-572 | Filling the window moves buffers in order and stops with an empty queue or a full window. |
| `TraceEngine.WritesItsOwn` | client/cstrace/cstrace_usb.cpp:142-168 | A finished data transfer is written into the buffer it was submitted for and no other, and that buffer's token completes next: the bytes that came with type data, no bytes with type data for none, and no bytes with type end of data or error for a cancelled or failed one. |
| `TraceEngine.OutOfTurn` | client/cstrace/cstrace_usb.cpp:136-175 | A transfer that finishes ahead of its turn, or none at all, ends the thread and writes nothing. |
| `TraceEngine.ControlExact` | client/cstrace/cstrace_plat_if.cpp:345-400 | A finished control request completes the oldest event buffer, as end of data and with its content kept, exactly when it is a whole message that ends the session of this sink; it is repeated exactly when a whole message or none came or a stop cancelled it, and otherwise the thread leaves. |
| `TraceContents.BuffersHold` | client/cstrace/cstrace_base.cpp:353-392 | In every run, the data tokens handed on are as many as the data transfers that finished in turn, in this order, each one's buffer with what its own transfer brought; the event tokens are as many as the events sent, in this order, each with its event's type. |
| `TraceContents.EndsInOrder` | client/cstrace/cstrace_plat_if.cpp:353-372 | Between stops and state events, the event buffers completed are the next as many as sessions of this sink ended with a buffer waiting, in order, as end of data; messages for other sinks complete none. |
| `TraceEngine.StopCompletes` | client/cstrace/cstrace_base.cpp:434-472 | Stop of a running sink completes all event buffers, empty and in order; any other stop changes nothing. |
| `TraceEngine.StartExact` | client/cstrace/cstrace_base.cpp:400-419 | Start is refused by a detached sink; otherwise the sink runs, the window is filled from the queue until full or empty, and a lost control request is made again behind the data requests. |
| `TraceEngine.SubmitExact` | client/cstrace/cstrace_base.cpp:241-281 | A buffer handed in is refused by a detached sink; otherwise it takes the next token, is reset, and goes to the end of the line of its kind, or nowhere for an invalid type. |
| `TraceEngine.NoneSubmitted` | client/cstrace/cstrace_base.cpp:270-275 | Unless the sink is started again, a stopped window only empties from the front and what is queued stays queued. |
| `TraceEngine.Delivers` | client/cstrace/cstrace_base.cpp:353-389 | From a stop on, under every interleaving of the thread, the client's waits, data completions in turn and control completions that are repeated: no token is lost or overtakes another, the thread neither ends nor blocks while something is pending, only queued buffers are not delivered, and the number of steps to the end is fixed. |
| `TraceEngine.DetachExact` | client/cstrace/cstrace_base.cpp:208-224 | What detaching leaves in the line of transport tokens is all behind the data transfers in the longest list of transfers finishing in turn (control completions that are kept in between), so that nothing is left if and only if these are as many as were pending. |
| `TraceEngine.CancelledControlBreaks` | client/cstrace/cstrace_plat_if.cpp:388-398 | With some data transfers finishing in turn and then the control request, cancelled or failed, or a token that is nobody's turn (the only case without a control request): all the other tokens are left, whatever follows. |
| `TraceEngine.DetachLeaves` | client/cstrace/cstrace_base.cpp:197-217 | A run from a sink just attached, for the first time or again, to a detach that finds a buffer pending and leaves its token behind. |
| `TraceEngine.DetachDrops` | client/cstrace/cstrace_base.cpp:208-224 | A detach hands on no data token, whatever finishes during its waits; only ends of session complete anything. |
| `TraceEngine.StaleBlocks` | client/cstrace/cstrace_usb.cpp:129-175 | With tokens left behind, however many, no run of the next session completes any data buffer, as nothing comes for the first of them. |
| `TraceEngine.StaleSession` | client/cstrace/cstrace_base.cpp:159-224 | The same from any session through its detach and the next attach. |
| `TraceEngine.AttachAgain` | client/cstrace/cstrace_base.cpp:159-224 | A detach that leaves no transport token behind and the attach after it start such a session, once the history is cut down to the completed tokens not taken yet. |
| `TraceEngine.SessionsKeep` | client/cstrace/cstrace_base.cpp:159-392 | So the invariant holds on through the end of a clean detach, whatever is done to the detached sink, the next attach, and every run of the next session. |
| `TraceEngine.OldTokensFirst` | client/cstrace/cstrace_base.cpp:288-325 | A session hands on what earlier ones left first and in order, then only tokens of its own: the first token a client is given in it is an old one if and only if there was one left. |
| `TraceEngine.LeftoversFirst` | client/cstrace/cstrace_base.cpp:208-224 | The same through a clean detach and the attach after it: old tokens come first if and only if completed ones were left at the end of the detach, which clears all other queues and not this one. |
| `TraceEngine.WaitsUntil` | client/cstrace/cstrace_base.cpp:192-201 | Whatever runs behind the start of a detach, the data thread is still waiting if and only if it was, and no transfer finished but control requests that are repeated: nothing has been cancelled yet. |
| `TraceEngine.DetachReturns` | client/cstrace/cstrace_base.cpp:192-206 | So the join ends if and only if the data thread was not waiting when the detach began, or such a transfer came by itself. |
| `TraceEngine.DetachedUntil` | client/cstrace/cstrace_base.cpp:331-344 | Whatever runs behind the start of a detach, the status is still DETACHED if and only if the data thread was gone before it or is not gone yet. |
| `TraceEngine.DetachedStillAccepts` | client/cstrace/cstrace_base.cpp:185-250 | So a buffer handed in after a detach is refused if and only if the data thread was gone before the detach. |
| `TraceEngine.AttachStatus` | client/cstrace/cstrace_base.cpp:159-173 | And attaching it again leaves it EXITED, which a notified wait takes for the end of the thread until the sink is started, unless the thread was gone before the detach. |
| `StreamingTrace.Trace.SubmitEventBuffer` | client/cstrace/cstrace_base.cpp:241-281 | Refused when detached; otherwise a token is spent, and the buffer queued, or kept for events, or refused for its type. |
| `StreamingTrace.Trace.SubmitBuffers` | client/cstrace/cstrace_base.cpp:558-572 | The loop fills the window. |
| `StreamingTrace.Trace.Start` | client/cstrace/cstrace_base.cpp:400-419 | Activates, fills the window, and renews a lost control request. |
| `StreamingTrace.Trace.Stop` | client/cstrace/cstrace_base.cpp:434-472 | Refused when not started, repeated without effect; otherwise completes all event buffers. |
| `StreamingTrace.Trace.WaitForEvent` | client/cstrace/cstrace_base.cpp:288-325 | Returns the oldest completed token, or blocks when there is none. |
| `StreamingTrace.Trace.ResumeWait` | client/cstrace/cstrace_base.cpp:309-324 | A wait ended by a notification fails exactly when the thread has ended, even if a token was pushed, takes the oldest token, or blocks again; one ended by the deadline takes a token that is there, or times out. |
| `StreamingTrace.Trace.RunThread` | client/cstrace/cstrace_base.cpp:353-392 | The data thread over any list of finished transfers is the run of its steps. |
| `StreamingTrace.Trace.SendStateEvent` | client/cstrace/cstrace_base.cpp:510-537 | Completes the front event buffer with the type, if there is one. |
| `StreamingTrace.Trace.BeginWait` | client/cstrace/cstrace_base.cpp:353-371 | The thread blocks on the front buffer, or leaves a detached sink. |
| `StreamingTrace.Trace.EndWait` | client/cstrace/cstrace_usb.cpp:114-177 | What a finished transfer does: control message, completed buffer, or the end of the thread. |
| `StreamingTrace.Trace.CompleteUsbTransfer` | client/cstrace/cstrace_plat_if.cpp:345-400 | Control messages: an end of session for this sink completes the oldest event buffer, any other message none; repeated unless failed, or cancelled while not stopping. |
| `StreamingTrace.Trace.CompleteDataTransfer` | client/cstrace/cstrace_base.cpp:373-389 | Written with what the transfer brought, popped, window filled, token pushed, before the lock is released. |
| `StreamingTrace.Trace.ThreadExit` | client/cstrace/cstrace_base.cpp:331-347 | The thread leaves its status behind. |
| `StreamingTrace.Trace.AttachSink` | client/cstrace/cstrace_base.cpp:159-173 | A control request and a new data thread; behind a clean detach the sink is at the start of a session like any other. |
| `StreamingTrace.Trace.Detach` | client/cstrace/cstrace_base.cpp:184-225 | Comes back exactly when its join can end, and has then done the rest; until then only the status has changed and the thread has worked. |
| `StreamingTrace.Trace.FinishDetach` | client/cstrace/cstrace_base.cpp:208-224 | The wait loop of detach and the clearing of the queues. |
| `CaptureLoop.RunGood` | client_utility/ccu_cswp.cpp:1253-1339 | In every state engine and client can reach together: each buffer out is recorded under its own token, contents of completed buffers are intact until handled, and the count and the file are right. |
| `CaptureLoop.FileInOrder` | client_utility/ccu_cswp.cpp:1209-1245 | The trace file is what the first data transfers that finished in turn brought, as many as buffers were handled, none of them cancelled or failed, into the first data buffers handed in: in that order, none lost or repeated. |
| `CaptureLoop.CountIsExact` | client_utility/ccu_cswp.cpp:1176-1178 | The pending count is the number of buffers the engine holds plus the one just taken. |
| `CaptureLoop.AllHandedIn` | client_utility/ccu_cswp.cpp:1272-1281 | The capture does not begin before every buffer was handed in, one after the other. |
| `CaptureLoop.HandleExact` | client_utility/ccu_cswp.cpp:1221-1242 | A token's buffer is the one recorded under it and is counted off; data goes to the end of the file and the buffer round again, anything else ends the loop. |
| `CaptureLoop.Recycled` | client_utility/ccu_cswp.cpp:1167-1180 | A buffer that goes round is handed in as a data buffer under a new token, recorded and counted, behind all that are with the engine. |
| `CaptureLoop.FoundAtItsIndex` | client_utility/ccu_cswp.cpp:1189-1201 | A token returned is found, at the one index it was issued for. |
| `CaptureLoop.HeldIsFree` | client_utility/ccu_cswp.cpp:1227-1238 | The buffer of a token the client holds is held by nobody else. |
| `CaptureLoop.NothingQueued` | client_utility/ccu_cswp.cpp:342-344 | While the sink is active no data buffer waits in the queue. |
| `CaptureLoop.DiscardEnds` | client_utility/ccu_cswp.cpp:1321-1331 | From stopping an active sink whose thread lives, in every interleaving of the discard loop with the thread and a transport that keeps to its order (control requests cancelled by the stop included): the count is the number of buffers outstanding, no token is lost or overtakes another, something can always be done while it is not zero, and the loop has ended, with nothing outstanding, exactly when as many steps have been taken as three for each pending buffer, one for each completed or event buffer, and one if the thread was not waiting. |
| `CaptureLoop.DiscardStuck` | client_utility/ccu_cswp.cpp:1326-1331 | A transfer that finishes out of turn ends the thread, and then no run ends the loop. |
| `CaptureLoop.DiscardWaits` | client_utility/ccu_cswp.cpp:1326-1331 | A wait of the loop ends it exactly when it fails: notified once the sink has exited, even if a token was pushed, or at the deadline without one. |
| `CaptureLoop.StopRefused` | client_utility/ccu_cswp.cpp:1319-1331 | Stopping a sink whose data thread has ended is refused, and what is outstanding stays so; any other sink is wound up by the loop. |
| `CaptureLoop.DiscardIsRun` | client_utility/ccu_cswp.cpp:1326-1331 | However its waits go, the loop is one of these interleavings. |
| `Capture.Command.SubmitClientBuf` | client_utility/ccu_cswp.cpp:1167-1180 | Hands a buffer in by its index, records its token and counts it. |
| `Capture.Command.FindTbufId` | client_utility/ccu_cswp.cpp:1189-1201 | Finds the first entry for a token if and only if there is one. |
| `Capture.Command.AwaitEvent` | client_utility/ccu_cswp.cpp:1212-1219 | Takes the oldest completed token, or blocks. |
| `Capture.Command.ResumeAwait` | client_utility/ccu_cswp.cpp:1212-1219 | The wait over: a token to handle, a timeout that goes on, or the error that ends the loop. |
| `Capture.Command.HandleEvent` | client_utility/ccu_cswp.cpp:1221-1242 | Counts the buffer off, appends its data, and says whether to hand it in again or leave the loop. |
| `Capture.Command.DiscardPending` | client_utility/ccu_cswp.cpp:1326-1331 | Whatever finishes during its waits, the loop succeeds only with a count of zero and nothing completed, pending, queued or waiting for an event; otherwise it stopped at a wait without a token. Its whole state is that of the loop function. |

## Left out

- Sockets, libusb calls, device and endpoint discovery, configuration files, console and file output, signals and wall-clock deadlines: a timeout is a step that may happen, a write to the trace file succeeds.
- More than one sink attached at a time: attaching a second sink replaces the data thread (client/cstrace/cstrace_base.cpp:172).
- Loss of the connection, the trace data callback, and exceptions thrown while `waitForBuffer` has dropped the lock; the transport is assumed to accept the engine's submissions.
- Overflow of the token counters and of `num_cmds`, which are 32-bit integers in the program.
- CswpBuffer.Buffer.Seek: only positions inside the data; a skip or seek past it is not modelled, nor is a string read into no room, which skips.
- CswpBuffer.Buffer.GetVarint: requires that no varint runs past ten bytes, where the shift is undefined.
- CswpBuffer.Buffer.GetString: requires the same of its length.
- CswpClient.Client.TransactReceive: requires the same of the reply, and that it holds its two header fields; behind a shorter one the program uses variables it never set.
- CswpClient.Client.BatchEnd: requires an open batch; a second end without a begin finds a stale command count.
- CswpClient.Client.Call: does not say which frame a register write sends when its header fits and its registers do not; `Commands.EncodeRegWrite` says what is in the buffer then.
- Matching.MatchPrefix: error codes that are nonzero multiples of 2^32, which the client takes for success, and bodies of another shape than the request's that happen to decode are neither accepted nor refused.
- CswpClient.Client.DecodeBody: a string already copied when a later field of the same response fails is not recorded; responses that are arrays (device lists, register lists and values, system description, capabilities) are left out.
- Commands.EncodeCommand: checked encoders are one table-driven method where the source has one function per command; MEM_POLL, GET_CONFIG and the NVSEC commands are left out. The server reads one varint less than the client writes for MEM_POLL (client_utility/dummy_server_main.cpp:612-618, client/cdebug/cswp_client_commands.c:333-336) and frees an unset pointer for GET_CONFIG (client_utility/dummy_server_main.cpp:522-532).
- DummyServer.ProcessIncomingData: the branch chain is a table of reads; running off the message or past the width of an int is an explicit outcome. The 4096-byte receive buffer, and a request split over several reads, are left out.
- Responses.Server.RunCommands: each handler fails with a code or adds one well-formed response; the canned payloads are left out (open and close pack three responses into one, client_utility/dummy_server_main.cpp:798-866; the read handler takes the address for a varint, client_utility/dummy_server_main.cpp:1155).
- MemoryWire.WriteChunkOverWire: the server of the repository keeps no memory; what a parsed write means is defined in the model. Device 2, for which no alignment is checked, is left out of the alignment results.
- MemoryChunks.ExecuteGetDevMemOut: every access succeeds; the batch and the result of the exchange are in `DumpWire.ExecuteGetOverClient`.
- MemoryChunks.ExecuteSetDevMemOut: every access that is sent succeeds; the batch and the result of the exchange are in `MemoryWire.ExecuteSetOverClient`.
- MemoryChunks.FillDevMem: assumes that each access that is sent succeeds and that the range lies in the memory.
- FillWire.FillOverClient: assumes that every exchange with the server is a success; one that is not ends the loop.
- DumpWire.DumpOverClient: assumes that every exchange is a success and that the server answers each frame from memories that do not change meanwhile.
- StreamingTrace.Trace.FinishDetach: the waits of a detach are one step, where the program drops the lock in each of them. A buffer submitted in between is accepted when the status is EXITED, and is cleared with the others at the end without being completed; the model does not show that.
- TraceLink.RunLinked: libusb accepts every submission and completes each endpoint's transfers in order; the window of the program is eleven (client/cstrace/include/cstrace_plat_if.h:108), any up to sixteen is covered.
- Session.Handle.Init: the clean-up of memory and the error strings are left out; the transport's connect is a result code.
- UsbDevice.Device.CompleteTransfer: libusb's callbacks are a list; the wait gives up when it is exhausted. Cancelling transfers in flight is libusb's business and changes nothing until it calls back. The outer loop of `completeTransfer_forToken` is left out, its locked pass is `UsbDevice.Device.RotateFor`.
- CaptureLoop.DiscardEnds: needs the data thread to be alive; when it has ended, stopping is refused and the loop is not reached. What the transport does not finish, or finishes out of turn, is `CaptureLoop.DiscardStuck`.
- Capture.Command.DiscardPending: the transfers that finish during a wait are a list that is worked off before the client gets the lock back.
- CaptureLoop.RunGood: the flush request and its timeout only decide when the loop is left, which the model leaves open.
- The register, capability and device-list commands of the utility, argument parsing, `ccu_out.cpp` and `cdebug_c_wrapper.cpp`.
