# Verified models of a C++ network stack

The repository holds several small servers written from scratch. This project models
their stateful cores in Dafny and proves what they promise over all inputs, all runs and
all interleavings.

| component | source | files |
|---|---|---|
| reactor: byte buffer, poller, event loop, connection, server | `ql_muduo/src` | `Buffer`, `Poller`, `LoopSpec`, `EventLoop`, `ConnectionSpec`, `TcpConnection`, `LifecycleSpec`, `Lifecycle`, `LifecycleHistory`, `LifecycleDelivery` |
| HTTP request parser and response writer | `webserver/http_conn.cpp` | `HttpFraming`, `HttpLines`, `HttpSpec`, `HttpNumbers`, `HttpMessages`, `HttpRoundTrip`, `HttpMemory`, `HttpRefinement`, `HttpGuarantees`, `HttpConn`, `HttpWriter` |
| RPC header codec and frame | `ql_rpc/src` | `RpcWire`, `RpcHeader`, `RpcFrame` |
| MySQL connection pool | `mysql_connection_pool` | `PoolSpec`, `PoolSafety`, `ConnectionPool` |
| search for a free file name | `网盘系统/TCPServer` | `Decimals`, `FreeName` |

**How it is built.** Code that updates an object in place is a class with those fields
and methods. Each method is proved to do to the object's view what a function does to a
value, and the promises are lemmas about runs of those functions. The kernel (`write`,
`readv`, `writev`, `epoll_ctl`, eventfd, the clock) is a parameter: whatever it may
answer. Threads are interleaved steps: `LoopSpec` interleaves pushes and eventfd writes
of other threads with one loop; `LifecycleSpec` interleaves any number of loops, each with
its own `LoopSpec` queue and its connections as `ConnectionSpec` values, so that its runs
are those of the whole server.

**Where a promise fails, the exact condition is proved.**

- A hang-up without EPOLLIN together with EPOLLPRI closes a connection twice in one
  `handleEvent` (`ql_muduo/src/Channel.cpp:58-89`; EPOLLRDHUP, which the code tests for as
  well, is in no interest mask and so is never delivered): the user hears of a second DOWN
  in a run if and only if that pattern meets end-of-file in it
  (`Lifecycle.OneDownIffNeverClosesTwice`), and only then is the server unsafe
  (`Lifecycle.SafeIffNeverClosesTwice`). `Lifecycle.DoubleCloseHappens` is such a run.
- `http_conn::write` compares the total number of bytes sent with a length that earlier
  writes have already shortened (`webserver/http_conn.cpp:491`). The response goes out as
  it should if and only if no write ends inside the header with old total plus new total
  at or past the header length (`HttpWriter.ExactIffNeverSlips`); `HttpWriter.LostHeaderBytes`
  is a run that loses header bytes of a five-byte file's response.
- The RPC round trip holds if and only if request and header serialize, which protobuf
  refuses over 2 GB (`RpcFrames.FrameRoundTrip`). The client ignores the refusal
  (`ql_rpc/src/ql_rpcchannel.cpp:29-39`): the method is then called with empty arguments
  (`RpcFrames.OversizedArrivesEmpty`). What a provider does with a frame that arrives in
  part is said for every prefix (`RpcFrames.TornFrame`).
- A name without a dot is written twice by the rename loop, because Qt's `left(-1)` is the
  whole string (`FreeNames.CandidateKeepsName`).

The HTTP parser follows sections 3.1.1, 3.2 and 5.3 of RFC 7230 where the code does. The
code differs: the method is compared without regard to case, exactly one blank separates
the fields, and a bare LF stalls the parse. The wire format of the RPC header is sections
"Base 128 Varints" and "Message Structure" of the Protocol Buffers Encoding document.

`dafny verify dfyconfig.toml` checks the whole project.

## Model

| member | source | states |
|---|---|---|
| `Lifecycle.LifecycleSafety` | ql_muduo/src/TcpServer.cpp:66-126 | In every interleaving of base-loop and I/O-loop steps in which no handler closes its connection twice: a channel a poller still knows belongs to a connection owned by the map, a functor or a handler; established, erased and destroyed run at most once each, in that order; the user hears at most one UP, then at most one DOWN, the DOWN before the erase; the map holds exactly the connections not erased; no poller knows two channels under one descriptor; no wakeup is lost and no functor is lost, repeated or overtaken on any loop |
| `Lifecycle.OneDownIffNeverClosesTwice` | ql_muduo/src/Channel.cpp:58-89 | For every run: each user hears of at most one DOWN if and only if no handler meets a hang-up without EPOLLIN together with EPOLLPRI and then reads end-of-file |
| `Lifecycle.DoubleCloseHappens` | ql_muduo/src/Channel.cpp:58-74 | It does happen: a run from the start of a server of one loop - accept, poll, the hang-up, end-of-file - after which the user has heard UP, DOWN, DOWN |
| `Lifecycle.SafeIffNeverClosesTwice` | ql_muduo/src/TcpServer.cpp:66-126 | For every run: the server is safe at its end if and only if no handler has met that event pattern in it |
| `Lifecycle.SecondDown` | ql_muduo/src/TcpConnection.cpp:269-278 | From any state the invariant allows, that event pattern does report a second DOWN |
| `Lifecycle.StepKeeps` | ql_muduo/src/TcpServer.cpp:66-126 | Every step of any thread other than a double close keeps the global invariant: each connection is at exactly one place between accept and destruction, with exactly the functors of that place queued on exactly the right loops |
| `Lifecycle.RunKeeps` | ql_muduo/src/TcpServer.cpp:66-126 | The global invariant over whole interleavings |
| `Lifecycle.InvIsSafe` | ql_muduo/src/TcpServer.cpp:66-126 | The invariant implies ownership, ordering, report and descriptor safety, and that channels reported by poll and not yet handled belong to connections that are alive |
| `Lifecycle.AcceptKeeps` | ql_muduo/src/TcpServer.cpp:66-107 | Accepting keeps the global invariant, with the new connection in the map and established at once on the base loop or queued on its I/O loop; descriptors of connections that exist together stay different |
| `Lifecycle.EstablishKeeps` | ql_muduo/src/TcpConnection.cpp:186-194 | Executing a queued establishment keeps the global invariant: the connection was never established before and is up from here on |
| `Lifecycle.CloseOnWorker` | ql_muduo/src/TcpConnection.cpp:269-278 | A close on an I/O loop keeps the global invariant: the map still has the connection and one removal carries it on the base loop |
| `Lifecycle.CloseOnBase` | ql_muduo/src/TcpServer.cpp:109-126 | A close on the base loop, which erases at once and queues the destruction, keeps the global invariant |
| `Lifecycle.EraseKeeps` | ql_muduo/src/TcpServer.cpp:116-121 | The erase half of removeConnectionInLoop keeps the global invariant even when other threads step in before its queueInLoop |
| `Lifecycle.QueueDestroyKeeps` | ql_muduo/src/TcpServer.cpp:122-126 | The queueInLoop half keeps the global invariant: the removal becomes the one destruction on the I/O loop |
| `Lifecycle.DestroyKeeps` | ql_muduo/src/TcpConnection.cpp:198-207 | Executing the destruction keeps the global invariant: the connection was down and never destroyed before, and no poller knows its channel from here on |
| `Lifecycle.WriteCallbackKeeps` | ql_muduo/src/Channel.cpp:82-88 | A write event keeps the global invariant, also when an earlier callback of the same dispatch has closed the connection |
| `LifecycleHistory.DownIffClosed` | ql_muduo/src/Channel.cpp:58-81 | In every run whatsoever: the user hears DOWN of a connection if and only if one of its handlers was called for EPOLLHUP without EPOLLIN, or for something to read and met end-of-file |
| `LifecycleHistory.EofCloses` | ql_muduo/src/Channel.cpp:75-81 | A live connection whose read callback, called for EPOLLIN or EPOLLPRI, meets end-of-file goes down with UP, DOWN reported; its removal is queued on the base loop, or on the base loop the erase is done and the destruction queued |
| `LifecycleHistory.HangupCloses` | ql_muduo/src/Channel.cpp:61-67 | The same for EPOLLHUP without EPOLLIN |
| `LifecycleHistory.RunIsReplay` | ql_muduo/src/Channel.cpp:58-89 | At the end of every run each connection is what its own establishment, close, write, user and destruction events have made of it, told from the raw event bits, and nothing else has touched it |
| `LifecycleDelivery.WholeHandler` | ql_muduo/src/Channel.cpp:58-89 | One handleEvent is the close callback, then the read callback, then the write callback, each exactly if its event bits are there |
| `LifecycleDelivery.AllReportedAreEntered` | ql_muduo/src/EventLoop.cpp:71-84 | Between a poll and the functors of the same turn, the handlers entered are exactly those of the channels reported, in order, with the events reported |
| `LifecycleDelivery.CallbacksAreQueued` | ql_muduo/src/TcpConnection.cpp:124-129 | In every run each write-complete and high-water callback due has been queued exactly once, on the loop of its connection and on no other |
| `ConnectionSpec.SendTakesAll` | ql_muduo/src/TcpConnection.cpp:104-164 | A connected send keeps all its bytes, in the kernel or in the buffer with EPOLLOUT wanted, EAGAIN included, unless nothing was buffered and the write meets EPIPE or ECONNRESET; then nothing changes |
| `ConnectionSpec.ShutdownTakes` | ql_muduo/src/TcpConnection.cpp:167-183 | A shutdown takes effect once: at once with nothing buffered, otherwise left to the draining write event |
| `ConnectionSpec.WriteEventMoves` | ql_muduo/src/TcpConnection.cpp:231-265 | A write event moves exactly the bytes the kernel takes from the buffer to it; one that is refused, for whatever reason, changes nothing |
| `ConnectionSpec.UpAndDown` | ql_muduo/src/TcpConnection.cpp:186-278 | Coming up and going down report once each, set the interest, and move no byte |
| `ConnectionSpec.DrainShuts` | ql_muduo/src/TcpConnection.cpp:239-254 | The write event that empties the buffer stops watching for writes and does a pending half-close |
| `ConnectionSpec.DestroyedGoesDown` | ql_muduo/src/TcpConnection.cpp:198-207 | A connection destroyed while connected is reported DOWN first; one that is being shut down is not |
| `ConnectionSpec.RunNotes` | ql_muduo/src/TcpConnection.cpp:124-155 | Over every run the callbacks queued are exactly those due: a write-complete for a direct write that took everything and for each draining of the buffer, a high-water mark each time a send takes the buffered bytes across it |
| `ConnectionSpec.OutputStreamExact` | ql_muduo/src/TcpConnection.cpp:104-164 | For every run of in-loop sends, short writes, EAGAINs, faults and write events: bytes the kernel took, then the buffered ones, are the accepted sends in order, a send faulted by EPIPE or ECONNRESET contributing nothing; the write side is shut at most once and only when every accepted byte has reached the kernel |
| `ConnectionSpec.NothingAfterShutdown` | ql_muduo/src/TcpConnection.cpp:167-183 | After the half-close, whatever runs next writes and accepts nothing and never shuts the write side again |
| `ConnectionSpec.RunKeeps` | ql_muduo/src/TcpConnection.cpp:231-265 | Over every run before the connection is down, EPOLLOUT is wanted and registered exactly while the output buffer is nonempty; half-close happened exactly when disconnecting with an empty buffer |
| `ConnectionSpec.DrainCompletes` | ql_muduo/src/TcpConnection.cpp:231-265 | No byte is stranded: each write event that takes a byte shrinks the buffer by as much, nothing is lost or reordered, and an empty buffer means a deferred half-close has happened |
| `ConnectionSpec.StepKeeps` | ql_muduo/src/TcpConnection.cpp:104-278 | Each operation keeps write-interest, half-close and buffer invariants and extends the output stream by all of an accepted send or nothing |
| `Connections.TcpConnection.Send` | ql_muduo/src/TcpConnection.cpp:82-99 | On its loop, send does to socket, channel, poller and buffer what ConnectionSpec.Send does to the connection value |
| `Connections.TcpConnection.SendInLoop` | ql_muduo/src/TcpConnection.cpp:104-164 | Direct write, fault handling, high-water mark and write-behind together refine ConnectionSpec.SendInLoop; nothing is written after a half-close |
| `Connections.TcpConnection.Shutdown` | ql_muduo/src/TcpConnection.cpp:167-183 | Shuts the write side now or leaves it to the draining write event, as ConnectionSpec.Shutdown |
| `Connections.TcpConnection.HandleWrite` | ql_muduo/src/TcpConnection.cpp:231-265 | Drains the buffer to the socket, stops watching and finishes a pending half-close when empty, as ConnectionSpec.HandleWrite |
| `Connections.TcpConnection.Drive` | ql_muduo/src/TcpConnection.cpp:82-278 | Any run of the object on its loop, from the invariant on: every call finds its precondition, the view is the run of the model, stream and half-close are kept |
| `Connections.TcpConnection.ConnectEstablished` | ql_muduo/src/TcpConnection.cpp:186-194 | Connected, watching for reads, one UP reported |
| `Connections.TcpConnection.HandleClose` | ql_muduo/src/TcpConnection.cpp:269-278 | Disconnected, watching for nothing, one DOWN reported |
| `Connections.TcpConnection.ConnectDestroyed` | ql_muduo/src/TcpConnection.cpp:198-207 | The channel is unknown to the poller afterwards; a still connected one is reported DOWN |
| `LoopSpec.LoopSafety` | ql_muduo/src/EventLoop.cpp:64-88 | In every interleaving of pushes, eventfd writes and loop steps: the enqueue history is functors started, then the batch, then the pending vector, in order; asleep in poll with functors pending, the eventfd is readable or some thread is between its push and its write |
| `LoopSpec.InNextBatch` | ql_muduo/src/EventLoop.cpp:168-184 | Whatever is pending is in the next batch that is swapped, whatever happens before the swap |
| `LoopSpec.WakeupGetsThrough` | ql_muduo/src/EventLoop.cpp:71-84 | From poll with functors pending, the wakeup alone - no other event, no timeout - leads to all of them being started |
| `LoopSpec.NextKeeps` | ql_muduo/src/EventLoop.cpp:127-150 | Each step of any thread keeps both invariants; the history only grows |
| `LoopSpec.CounterIsWrites` | ql_muduo/src/EventLoop.cpp:103-150 | Along every run the eventfd counter is the number of writes since it was last read, saturated |
| `LoopSpec.SleepsAfterDrain` | ql_muduo/src/EventLoop.cpp:142-150 | After the wakeup has been handled the eventfd stays unreadable as long as nobody writes |
| `LoopSpec.QueuedIsSteps` | ql_muduo/src/EventLoop.cpp:127-140 | queueInLoop is a push, and a write exactly from another thread or while functors run |
| `EventLoops.EventLoop.QueueInLoop` | ql_muduo/src/EventLoop.cpp:127-140 | A push, and a wakeup exactly when called from another thread or while functors run |
| `EventLoops.EventLoop.RunInLoop` | ql_muduo/src/EventLoop.cpp:114-124 | On the loop's thread the functor runs at once and is never queued; elsewhere it is queued with a wakeup |
| `EventLoops.EventLoop.Wakeup` | ql_muduo/src/EventLoop.cpp:103-111 | One eventfd write; a full counter stays readable |
| `EventLoops.EventLoop.HandleRead` | ql_muduo/src/EventLoop.cpp:142-150 | Reads the eventfd: its counter is zero afterwards, the pending functors are untouched |
| `EventLoops.EventLoop.DoPendingFunctors` | ql_muduo/src/EventLoop.cpp:168-184 | Exactly the functors pending at the swap run, in order; what other threads and those functors queue meanwhile waits, in order, for the next batch |
| `Buffering.RefinesFifo` | ql_muduo/src/Buffer.h:45-89 | Under any run of append, readFd and retrieve, with compaction, resizing and the 64 KiB overflow area, contents are those of an unbounded byte FIFO and 8 <= reader <= writer <= size |
| `Buffering.Conservation` | ql_muduo/src/Buffer.h:45-89 | In every run the bytes handed out, then the bytes left, are the bytes there were and the bytes brought in, in order |
| `Buffering.Buffer.Drive` | ql_muduo/src/Buffer.h:45-89 | Any run of the object: its view is the run of the model, what its callers were handed is what the FIFO gives |
| `Buffering.ReadRoom` | ql_muduo/src/Buffer.cpp:8-22 | One readFd can take what fits behind the contents and never less than 64 KiB |
| `Buffering.EmptyStartsOver` | ql_muduo/src/Buffer.h:45-59 | A queue that has been emptied starts over at the front of the vector |
| `Buffering.SpaceBound` | ql_muduo/src/Buffer.h:118-133 | In every run the vector never exceeds the larger of its initial size and 2*M+7, M the peak number of readable bytes |
| `Buffering.Buffer.Append` | ql_muduo/src/Buffer.h:84-89 | The bytes go behind the readable ones, in the array or a larger one |
| `Buffering.Buffer.EnsureWriteableBytes` | ql_muduo/src/Buffer.h:75-81 | Room for len bytes with the contents untouched |
| `Buffering.Buffer.Compact` | ql_muduo/src/Buffer.h:124-132 | The readable bytes are moved down in place over an overlapping range, unchanged |
| `Buffering.Buffer.Retrieve` | ql_muduo/src/Buffer.h:45-59 | Drops the first len readable bytes, or all |
| `Buffering.Buffer.RetrieveAsString` | ql_muduo/src/Buffer.h:67-72 | Gives len bytes of the vector from the reader on, the first ones of the contents when there are so many, and drops them |
| `Buffering.Buffer.ReadFd` | ql_muduo/src/Buffer.cpp:8-38 | However readv splits the bytes between tail and overflow area, they end up behind the contents in order |
| `Polling.EPollPoller.Update` | ql_muduo/src/EPollPoller.cpp:125-146 | Called only when epoll_ctl is legal: no ADD of a registered descriptor, no MOD or DEL of an absent one |
| `Polling.EPollPoller.UpdateChannel` | ql_muduo/src/EPollPoller.cpp:63-95 | Keeps agreement: index kAdded exactly for the descriptors in the kernel set, each under the mask events_; the map holds exactly the channels that are not kNew; the two asserts of the source hold |
| `Polling.EPollPoller.RemoveChannel` | ql_muduo/src/EPollPoller.cpp:98-111 | The channel leaves map and kernel set, agreement is kept |
| `Polling.Channel.EnableWriting` | ql_muduo/src/Channel.h:44-48 | Write interest set and registered, agreement kept |
| `Polling.Channel.DisableWriting` | ql_muduo/src/Channel.h:49-53 | Write interest cleared and the registration follows, agreement kept |
| `Polling.Channel.DisableAll` | ql_muduo/src/Channel.h:54-58 | Keeps agreement from every state, also when it re-adds a kDeleted channel with an empty mask |
| `HttpRefinement.InPlaceChunkIndependence` | webserver/http_conn.cpp:223-276 | For every stream that fits the buffer and any two ways of cutting it into reads, the in-place machine gives the same verdict, indices, path, Host and keep-alive flag, those of a single pass over the stream |
| `HttpRefinement.ReadRefines` | webserver/http_conn.cpp:223-276 | One call of process_read on the NUL-rewritten buffer is one pass over the bytes received; it terminates with start <= checked <= read, never moves the checked index back and changes no byte at or past it |
| `HttpRefinement.TurnRefines` | webserver/http_conn.cpp:228-274 | One turn: a complete line is taken as the line parser takes it, without one only the checked index moves |
| `HttpRefinement.RequestLineTaken` | webserver/http_conn.cpp:277-324 | The parser that cuts the line up with NULs leaves m_url at a C string that is the path a pure parser finds in the line |
| `HttpRefinement.HeaderLineTaken` | webserver/http_conn.cpp:325-374 | The header parser leaves m_host at the field value and sets flag and length as a pure parser does |
| `HttpRefinement.FeedRefines` | webserver/http_conn.cpp:165-200 | Reads and calls in alternation refine the same on the byte stream |
| `HttpGuarantees.InPlaceAccepts` | webserver/http_conn.cpp:277-374 | In place and in any pieces, GET_REQUEST is reached exactly when the bytes start with a well-formed message without a body, said by splitting at CR LF |
| `HttpGuarantees.InPlaceRoundTrip` | webserver/http_conn.cpp:277-374 | A printed GET request in origin-form or http:// absolute-form, in any pieces and whatever follows, gives back path, Host, keep-alive flag and Content-length; the verdict waits for a body exactly when a length other than zero was printed |
| `HttpMessages.DecidesIffWellFormed` | webserver/http_conn.cpp:223-276 | On the stream the machine decides in favour exactly for what a parser-free description accepts |
| `HttpMessages.BadIffFirstLineBad` | webserver/http_conn.cpp:277-324 | BAD_REQUEST exactly when a complete first line is not GET, one blank, a target, one blank, HTTP/1.1 |
| `HttpMessages.MessageDecided` | webserver/http_conn.cpp:325-374 | What is recovered is what the message says: its path, the last Host, whether some Connection says keep-alive, the last Content-length |
| `HttpMessages.RequestLineParsed` | webserver/http_conn.cpp:277-324 | The request-line parser finds a path exactly when the line is three fields in the sense of a grammar, case ignored, one blank between them |
| `HttpRoundTrip.RoundTrip` | webserver/http_conn.cpp:277-374 | Printing then parsing is the identity on path, Host, keep-alive and Content-length |
| `HttpMessages.FieldParsed` | webserver/http_conn.cpp:341-371 | A line is taken for a field of a name with a value exactly when it is that name in any case, blanks, and the value |
| `HttpMessages.SaysKeepAliveIs` | webserver/http_conn.cpp:341-350 | Keep-alive is set exactly by a Connection field whose whole value is that word in any case |
| `HttpNumbers.AtolReads` | webserver/http_conn.cpp:353-359 | White space, an optional sign and digits up to anything else give the number they denote, as near as a 64-bit long gets |
| `HttpNumbers.AtolOfNothing` | webserver/http_conn.cpp:353-359 | Without a digit there the length is zero |
| `HttpNumbers.ToInt32Is` | webserver/http_conn.cpp:353-359 | m_content_length keeps the low 32 bits, signed |
| `HttpLines.ProcessIsFold` | webserver/http_conn.cpp:388-417 | The incremental scan does to the bytes what the handler does to their CR LF lines in turn |
| `HttpLines.ReadAreLines` | webserver/http_conn.cpp:388-417 | Any stream on which the machine decides starts with lines it decides on |
| `HttpSpec.ChunkIndependence` | webserver/http_conn.cpp:223-276 | The first verdict and all that was recovered do not depend on how the stream is cut |
| `HttpFraming.FeedIsProcess` | webserver/http_conn.cpp:388-417 | Resuming a scan at the checked index is as good as scanning the whole at once |
| `HttpFraming.ScanGrows` | webserver/http_conn.cpp:388-417 | A scan that stopped for want of bytes resumes as if it had never stopped; a bare LF stalls it for good |
| `HttpConnection.HttpConn.ProcessRead` | webserver/http_conn.cpp:223-276 | The object's process_read keeps its invariant, refines the pass over the stream and leaves bytes at or past the checked index alone |
| `HttpConnection.HttpConn.PraseLine` | webserver/http_conn.cpp:388-417 | The scan loop over the buffer, ending a line with two NULs |
| `HttpConnection.HttpConn.PraseRequestLine` | webserver/http_conn.cpp:277-324 | Cuts the line in place as the memory-level function does |
| `HttpConnection.HttpConn.PraseHeaders` | webserver/http_conn.cpp:325-374 | Sets pointer, flag or length as the memory-level function does |
| `HttpConnection.HttpConn.Read` | webserver/http_conn.cpp:165-200 | New bytes go behind those received, nothing the parser knows changes |
| `HttpWriter.ExactIffNeverSlips` | webserver/http_conn.cpp:470-502 | After any run of short writes, bytes sent and bytes pending in the two regions are the response if and only if no write slipped: ended inside the header while previous total plus new total reached the header length |
| `HttpWriter.FinishedExactly` | webserver/http_conn.cpp:503-521 | A response reported as finished went out exactly if and only if no write slipped |
| `HttpWriter.SlippedIsStuck` | webserver/http_conn.cpp:488-502 | A response in one region that slips never finishes |
| `HttpWriter.SlipNeedsTwo` | webserver/http_conn.cpp:491-501 | A slip takes a second write that ends inside the header |
| `HttpWriter.LostHeaderBytes` | webserver/http_conn.cpp:491-501 | The 81-byte header of a five-byte file and writes of 40 and two: reported finished, not what was to be sent |
| `HttpWriter.Writer.Write` | webserver/http_conn.cpp:452-523 | The write loop takes writev answers as long as they are bytes and some are left to send; finished exactly when nothing is left, broken exactly when an error stopped it, waiting exactly when the socket was full |
| `HttpWriter.Writer.File` | webserver/http_conn.cpp:628-640 | The two regions of a file response |
| `HttpWriter.Writer.Text` | webserver/http_conn.cpp:655-660 | The one region of any other response |
| `RpcHeaders.ParseSerialized` | ql_rpc/src/rpcheader.pb.cc:178-263 | Parsing a serialized header gives it back, fields with default values left off the wire, unknown records and nested groups included |
| `RpcHeaders.ConcatenationMerges` | ql_rpc/src/rpcheader.pb.cc:302-320 | Parsing two serialized headers one after the other is merging the second into the first |
| `RpcHeaders.ParseIntoIsMerge` | ql_rpc/src/rpcheader.pb.cc:178-231 | Parsing a serialized header into any header merges it, and goes on with what follows |
| `RpcHeaders.ParseAppend` | ql_rpc/src/rpcheader.pb.cc:178-231 | Behind any stream that parses, the rest is parsed into what the first part gave |
| `RpcHeaders.SerializedSize` | ql_rpc/src/rpcheader.pb.cc:265-293 | The serialized length is the size computed from the lengths of the values |
| `RpcHeaders.ParsedIsValid` | ql_rpc/src/rpcheader.pb.cc:178-231 | Every parsed header satisfies what the laws ask of a header |
| `RpcHeaders.RpcHeader.InternalParse` | ql_rpc/src/rpcheader.pb.cc:178-231 | The parse loop: fails exactly when the stream does not parse, and else holds what it parses to |
| `RpcHeaders.RpcHeader.InternalSerialize` | ql_rpc/src/rpcheader.pb.cc:233-263 | Writes exactly the serialization |
| `RpcHeaders.RpcHeader.ByteSizeLong` | ql_rpc/src/rpcheader.pb.cc:265-293 | The length of what InternalSerialize writes |
| `RpcHeaders.RpcHeader.MergeFrom` | ql_rpc/src/rpcheader.pb.cc:302-320 | Nonempty and nonzero fields replace, unknown records are appended |
| `RpcHeaders.ParseIsRecords` | ql_rpc/src/rpcheader.pb.cc:178-231 | A stream parses exactly if it consists of records, to what they say |
| `RpcHeaders.RecordsDecide` | ql_rpc/src/rpcheader.pb.cc:182-224 | The last record of each field wins, an empty one too; args_size keeps the low 32 bits; everything else is kept in order |
| `RpcHeaders.HeaderExample` | ql_rpc/src/rpcheader.pb.cc:233-263 | A small header, byte by byte |
| `RpcWire.WireExamples` | ql_rpc/src/rpcheader.pb.cc:233-263 | The example records of the Encoding document and one of each other wire type, byte by byte |
| `RpcWire.VarintLayout` | ql_rpc/src/rpcheader.pb.cc:233-263 | Groups of seven bits, lowest first, the top bit set in all bytes but the last, no superfluous last byte |
| `RpcWire.ReadVarintIff` | ql_rpc/src/rpcheader.pb.cc:178-231 | A varint is one to ten bytes, the top bit set in all but the last; nothing longer is read |
| `RpcWire.TooLong` | ql_rpc/src/rpcheader.pb.cc:178-231 | Ten bytes with the top bit set are the start of no record |
| `RpcWire.NoRecord` | ql_rpc/src/rpcheader.pb.cc:213-224 | Field number 0, tags beyond 32 bits, end tags outside their group and unknown wire types are refused |
| `RpcWire.VarintLength` | ql_rpc/src/rpcheader.pb.cc:265-293 | A varint takes one byte for each started group of seven bits |
| `RpcWire.FieldRead` | ql_rpc/src/rpcheader.pb.cc:178-231 | Reading a written record, groups of groups included, gives it back with its length, whatever follows |
| `RpcWire.GroupRead` | ql_rpc/src/rpcheader.pb.cc:213-224 | The records of a group come back up to its own end tag |
| `RpcHeaders.CutIsPut` | ql_rpc/src/rpcheader.pb.cc:178-231 | The first n bytes of a list of records parse exactly when they are whole records |
| `RpcFrames.FrameRoundTrip` | ql_rpc/src/rpcprovider.cpp:100-158 | The provider calls the method with the request that was made, whatever bytes follow the frame, if and only if request and header are what protobuf serializes, each at most 2 GB |
| `RpcFrames.OversizedArrivesEmpty` | ql_rpc/src/ql_rpcchannel.cpp:28-39 | A request that does not serialize is not refused: the method is called with empty arguments |
| `RpcFrames.TornFrame` | ql_rpc/src/rpcprovider.cpp:103-158 | For every prefix of a frame: cut in the size, or in the header at the end of a record, out_of_range leaves the provider (unless the header so far names nothing published); cut inside a header record it is dropped; cut in the arguments the method is called with what has come of them |
| `RpcFrames.HeaderSizeWraps` | ql_rpc/src/rpcprovider.cpp:158-158 | The position of the arguments is a uint32: behind a header size of 2^32 - 4 or more they are looked for from the front of the frame |
| `RpcFrames.CallMethod` | ql_rpc/src/ql_rpcchannel.cpp:26-63 | The client stub sends the frame: four bytes of header size, lowest first, header, arguments; what does not serialize is sent empty |
| `PoolSafety.PoolSafety` | mysql_connection_pool/CommonConnectionPool.cpp:73-202 | In every run of borrowers, returners, producer and scanner: the counter is idle plus leased, no connection is both, deleted or twice in the queue, the queue is sorted by idle start, and initSize <= count <= max(initSize, maxSize) |
| `PoolSafety.DeletedStaysDeleted` | mysql_connection_pool/CommonConnectionPool.cpp:188-195 | A deleted connection is never idle or leased again |
| `PoolSafety.ScanEvictsLongest` | mysql_connection_pool/CommonConnectionPool.cpp:180-201 | A scan evicts exactly the longest prefix of connections idle for at least m_maxIdleTime seconds at their reading that the initSize floor allows; stopping at a front that has not been is right because nothing behind it has |
| `PoolSafety.LongestIsUnique` | mysql_connection_pool/CommonConnectionPool.cpp:180-201 | No other number of evictions meets that description |
| `PoolSafety.ScanLeavesNoneExpired` | mysql_connection_pool/CommonConnectionPool.cpp:180-201 | Unless the pool is down to its initial size, no connection is left that has been idle for m_maxIdleTime seconds |
| `PoolSafety.NoneVanishes` | mysql_connection_pool/CommonConnectionPool.cpp:109-202 | No step loses a connection, and only the producer below maxSize makes one: each is idle, leased or deleted |
| `PoolSafety.GetLeasesLongestIdle` | mysql_connection_pool/CommonConnectionPool.cpp:154-167 | Nothing that stays in the queue has been idle for longer than what is leased |
| `PoolSafety.ReturnedIsSafe` | mysql_connection_pool/CommonConnectionPool.cpp:156-163 | No scan deletes a returned connection before it has been idle for m_maxIdleTime |
| `PoolSafety.IdleFromNow` | mysql_connection_pool/CommonConnectionPool.cpp:117-163 | A connection that is returned or produced counts as idle from that moment; the others stay as they are |
| `PoolSafety.ExpiredIsOutstayed` | mysql_connection_pool/CommonConnectionPool.cpp:186-188 | The comparison of whole milliseconds with m_maxIdleTime * 1000 is that of the idle time with m_maxIdleTime seconds, to the nanosecond |
| `PoolSafety.StepKeeps` | mysql_connection_pool/CommonConnectionPool.cpp:109-202 | Every critical section keeps the invariant; deleted connections only accumulate |
| `PoolSafety.FilledHolds` | mysql_connection_pool/CommonConnectionPool.cpp:82-90 | The constructor's loop leaves one idle connection per turn, sorted and counted |
| `ConnectionPools.ConnectionPool.constructor` | mysql_connection_pool/CommonConnectionPool.cpp:82-90 | A pool of initSize fresh idle connections that satisfies the invariant |
| `ConnectionPools.ConnectionPool.ProduceConnection` | mysql_connection_pool/CommonConnectionPool.cpp:117-134 | A fresh connection exactly when the counter is below maxSize |
| `ConnectionPools.ConnectionPool.GetConnection` | mysql_connection_pool/CommonConnectionPool.cpp:154-167 | Leases the connection idle longest |
| `ConnectionPools.ConnectionPool.ReturnConnection` | mysql_connection_pool/CommonConnectionPool.cpp:156-163 | The deleter refreshes the idle start and puts the connection at the end of the queue |
| `ConnectionPools.ConnectionPool.ScanConnections` | mysql_connection_pool/CommonConnectionPool.cpp:179-201 | The scan loop evicts what PoolSpec says and leaves, above the floor, no connection idle for m_maxIdleTime seconds or more |
| `FreeNames.FindFreePath` | 网盘系统/TCPServer/mytcpsocket.cpp:478-491 | Stops within one turn per taken path, at the first path in the sequence that is not taken |
| `FreeNames.CandidatesDiffer` | 网盘系统/TCPServer/mytcpsocket.cpp:569-579 | Different counters give different paths, with and without a dot in the name |
| `FreeNames.TriedBound` | 网盘系统/TCPServer/mytcpsocket.cpp:628-638 | No more paths are tried in vain than there are taken ones |
| `FreeNames.SomeCandidateIsFree` | 网盘系统/TCPServer/mytcpsocket.cpp:628-638 | For every finite set of taken paths a free one is found after trying at most as many as there are taken |
| `FreeNames.CandidateKeepsName` | 网盘系统/TCPServer/mytcpsocket.cpp:485-488 | With a dot the number goes in front of the last one; a name without a dot is written twice, around the number |
| `Decimals.DecimalValue` | 网盘系统/TCPServer/mytcpsocket.cpp:488-488 | The printed decimal reads back as the counter |
| `Decimals.NoLeadingZero` | 网盘系统/TCPServer/mytcpsocket.cpp:488-488 | The printed decimal has no leading zero |

## Left out

Contracts weaker than the source might suggest:

- Lifecycle.LifecycleSafety: assumes that no handler closes its connection twice; `Lifecycle.SafeIffNeverClosesTwice` shows that it fails without that.
- ConnectionSpec.OutputStreamExact: is about calls on the connection's own loop; `send` from another thread queues a raw `c_str()` pointer and `shutdown` there is check-then-set.
- HttpRefinement.InPlaceChunkIndependence: says nothing of the pointer m_url after BAD_REQUEST, and is about streams shorter than the buffer of 4096 bytes; a full buffer is not modelled.
- HttpSpec.ChunkIndependence: a blank line after a nonzero Content-length ends the model with a verdict of its own; bodies are not modelled, and with them the source runs the line scanner over body bytes.
- HttpConnection.HttpConn.CStringAt: stops at the end of the buffer where a C string without a NUL would run on; the object's invariant keeps a NUL in front of that.
- HttpWriter.Writer.Write: takes EAGAIN when its list of writev answers is used up; unmapping, re-arming epoll and the reset for the next request are left out.
- RpcWire.ReadPayload: accepts groups nested to any depth, lengths up to what has arrived and tags of up to ten bytes; the limits of the protobuf runtime, whose code is not in the repository, are not modelled beyond the 2 GB of a message.
- RpcFrames.FrameRoundTrip: knows a request by its serialized bytes; what the service makes of them is not part of the model. The header size is taken to lie lowest byte first in memory.
- ConnectionSpec.DestroyedGoesDown: covers destruction of a connection that is still up, which happens only in `~TcpServer`, itself left out.
- PoolSafety.PoolSafety: is safety only; the scanner can empty the queue without notifying the producer.
- EventLoops.EventLoop.DoPendingFunctors: knows a functor by the functors it queues; what else it does is the business of `LifecycleSpec`.

Not modelled:

- `~TcpServer`, `EventLoop::quit` with work pending, and queueing to a loop before `loop()` starts.
- A `TcpConnectionPtr` kept by the user beyond its callbacks, and the input buffer inside `TcpConnection` (`Buffer.ReadFd` is modelled by itself).
- Round-robin choice of the I/O loop (any choice is allowed), `nextConnId_` wrapping around, and error callbacks, which only log.
- `EPollPoller::poll` itself and the doubling of its event list: what it reports is a parameter.
- `http_conn::do_request` and everything about files; response text; the branch for empty files, which falls through to `default`.
- The publishing side of `RpcProvider`, ZooKeeper, and response messages.
- Waiting on condition variables in the pool: a step is a critical section once its wait is over.
- Widths of counters: bytes to send, the rename counter and the connection count are unbounded integers, so files of 2 GB and more are not covered.
- Sockets, MySQL, Redis, Qt, loggers, configuration files, timestamps and address formatting.
