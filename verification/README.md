# A verified model of xenonframe

This project models the concurrent mailbox and the services built around it in xenonframe, a C++ back-end
framework, and proves what they are for.  `dafny verify dfyconfig.toml` checks everything.

* **Mailboxes and actors.**  `Pipe` is the lock-free single-producer single-consumer pipe as a step machine in
  which every access to the shared cell is a step of its own.  `ChunkPipe` is the same pipe in memory, with
  linked chunks and one spare chunk, and refines it; `YPipe` is the class.  `MsgBox` adds the wake-up byte,
  `Actors` the actors mutex, the jobs and the stealing workers, `WorkerPool` the queues of the pool.
* **Pipelined RPC.**  `Endec` and `EndecBuffer` are the binary encoding, `RpcFrames` the messages,
  `RpcPipeline` and `RpcProgress` a client session, a server session and two byte streams, `RpcSessions` the two
  classes.
* **Stream codecs.**  `Json`, `JsonNulls`, `JsonTokens` and `JsonText` (printer and recursive-descent parser; section 7 of
  RFC 8259), `Utf8` (`check_utf8`), `MqttMessages`, `MqttParser`, `MqttStreams`, `MqttPacker`, `MqttPackBuffer` and
  `MqttConnect` (MQTT 3.1.1), `WebSocketFrames`, `WebSocketStreams`, `WebSocketCuts`, `WebSocketStandard` and `WebSocketParser`
  (section 5.2 of RFC 6455), `Sha1` (FIPS 180-4).
* **Storage.**  `Metadata` and `MetadataStore` compare two maps with what a restart would load;
  `LogEntries`, `LogFile` and `FileLog` prove the segmented Raft log to be a plain sequence.

The modules `EndecWire`, `RpcWire`, `JsonDocuments`, `JsonTokens`, `MqttWire`, `WebSocketWire` and `Sha1Example` write the bytes of
each format out and say, without the functions of the codec, which bytes mean what; `ActorDelivery`, `ActorProgress`
and parts of `MsgBox`, `Pipe` and `RpcPipeline` say from the sequence of actions alone what must arrive, and that it does.

`Bytes`, `Buffers` and `Options` hold what several of them share.  Concurrency is modelled by actions and runs:
a run is any sequence of enabled steps, so a statement about every run is one about every interleaving.  Where the
program changes things in place there is a class or a method with loops, proved equal to a function of the old
state, and the promised properties are proved about that function.

## Where the code does not do what it promises

The model follows the code.  Each of these is proved with its exact condition.

* `check_utf8` documents the table of well-formed sequences, but its test for the second byte of a two-byte
  character is the wrong way round, so all of U+0080..U+07FF is refused (`Utf8.RightIffNoTwoByteCharacter`).
* The MQTT length decoder masks with `value & 0x7f << shift`, which is `value & (0x7f << shift)`; lengths agree
  below 2^14 and only by accident from there on (`MqttPacker.LengthSurvivesIff`).  A refused packet without a body
  does not end the call, and its refusal is overlooked when another packet is handed on after it; then it matters to
  a caller where the stream is cut, and only then (`MqttStreams.CallerSeesTheSameIff`).  The codes of a subscribe-ack
  are all read from the front of the body (`MqttPacker.SubscribeAckSurvivesIff`).  The packer of CONNECT writes a truth
  value for the low byte of the keep-alive and both bits for any QoS of the will (`MqttConnect.ConnectSurvivesIff`).
* The buffers of subscriptions and unsubscriptions are four bytes longer than the remaining length and take five
  bytes of header when that length is from 2^21 to below 2^28; the last byte is then written past the end
  (`MqttPackBuffer.BufferSufficesIff`).
* The JSON printer escapes a carriage return and the parser does not know the escape; negative numbers make the
  parser turn for ever; empty containers come back as null; the case for a null member runs on into the next case
  (`JsonNulls.BuildInvertsPrintIff`, `JsonNulls.NullMemberIsLost`).
* The WebSocket parser stores the bytes of a length or a key from the field's beginning, and unmasks from the key's
  first byte, with every call; a frame in two pieces is received as it was sent under a condition on the bytes of its
  length and key (`WebSocketCuts.CutHarmlessIff`).  It takes the reserved bits for FIN, and does not read the key of a
  masked frame without a payload, such as a browser's ping (`WebSocketStandard.StandardFrameIff`).
* The answer to an RPC call overwrites an earlier cancelling, so a caller that looks after that gets the result of a
  cancelled call (`RpcProgress.CancelledIff`).
* A metadata `set` that fills the log compacts before it changes the map and is lost to a restart
  (`Metadata.DiskIsMemoryIff`, `Metadata.CompactingSetIsLost`); a snapshot for another node has no integers.
* `log_entry::bytes` counts four bytes for a field written as one, which leaves three zeros in every record.  The
  last entry's term is reported as zero when the entry's size, 24 and its data, is over the cache budget, and only
  then; with the default budget of one byte that is after every write (`FileLog.Filelog.GetLastLogEntryTerm`).

## Model

| member | source | states |
|---|---|---|
| Pipe.InvStep | src/xutil/ypipe.hpp:17-56 | one atomic step of the writer or of the reader, in any order, keeps the pointers in order and the shared cell consistent with who is awake |
| Pipe.InvRun | src/xutil/ypipe.hpp:17-56 | the same after every interleaving of any length |
| Pipe.ReadsArePrefixOfFlushed | src/xutil/ypipe.hpp:17-56 | in every interleaving what was read is a prefix, in order, of what was flushed, which is a prefix of what was written |
| Pipe.HoldsWhatWasWritten | src/xutil/ypipe.hpp:17-56 | the pipe holds what the sequence of actions says was written, item by item in order, and no more than whole items are flushed |
| Pipe.PointersStayInOrder | src/xutil/ypipe.hpp:17-56 | front, `r_`, `c_` (when not null), `w_`, `f_` and back stay in queue order |
| Pipe.ReaderAndWriterSlotsDisjoint | src/xutil/ypipe.hpp:49-56 | the slot the reader moves out of or pops lies before every slot the writer may still write |
| Pipe.ReaderNeverStuck | src/xutil/ypipe.hpp:49-56 | a `read` whose `check_read` said yes always finds a value to take |
| Pipe.SleepBalance | src/xutil/ypipe.hpp:24-48 | the reader is asleep exactly when it has been put to sleep once more than it was woken |
| Pipe.FlushReportsSleep | src/xutil/ypipe.hpp:24-37 | no lost wake-up: `flush` fails exactly when the reader has put itself to sleep since the last wake-up, and then everything flushed before has been read |
| Pipe.GapStaysQuiet | src/xutil/ypipe.hpp:29-34 | between a failed compare-and-swap and the store `c_ = f_` no reader step hands anything out or wakes the reader |
| Pipe.EmptyMeansDrained | src/xutil/ypipe.hpp:38-48 | a reader that is told there is nothing has read everything flushed, unless a flush is in its gap |
| Pipe.FlushVerdict | src/xutil/ypipe.hpp:24-37 | a whole `flush`: false exactly when something was flushed to a sleeping reader |
| Pipe.CheckReadVerdict | src/xutil/ypipe.hpp:38-48 | a whole `check_read`: true exactly when a flushed item is waiting, and asleep exactly when none is |
| ChunkPipe.RefinedIsSafe | src/xutil/yqueue.hpp:44-75 | no step reads or writes through a bad chunk address, and the chunk that is deleted is neither live nor the spare |
| ChunkPipe.LinkRefines | src/xutil/yqueue.hpp:52-63 | linking the spare or a new chunk overwrites a stale `next` before the reader can follow it, and is no step of the abstract pipe |
| ChunkPipe.PopRefines | src/xutil/yqueue.hpp:65-75 | popping, with or without leaving a chunk, is the abstract pop |
| ChunkPipe.LiveSlotsDistinct | src/xutil/yqueue.hpp:44-75 | live slots have distinct addresses, so comparing addresses is comparing slots |
| ChunkPipe.TestsAgree | src/xutil/ypipe.hpp:24-48 | the pointer comparisons of `flush` and `check_read` decide what comparing slot numbers decides |
| ChunkPipe.FlagsAgree | src/xutil/ypipe.hpp:24-48 | the flags returned are the abstract ones |
| ChunkPipe.StepRefines | src/xutil/ypipe.hpp:9-56 | every memory step is safe and is the abstract step it stands for, or none |
| ChunkPipe.RunRefines | src/xutil/ypipe.hpp:9-56 | the same over every run |
| ChunkPipe.NoBadAccess | src/xutil/yqueue.hpp:44-75 | memory safety of chunk recycling for every chunk size, interleaving and allocator |
| ChunkPipe.ChunksAccountedFor | src/xutil/yqueue.hpp:44-75 | the allocated chunks are at all times exactly the live chain, the spare one and the two that may be held: no leak, no double free |
| ChunkPipe.MemoryRefinesPipe | src/xutil/ypipe.hpp:9-56 | what the pipe in memory hands out in any interleaving the abstract pipe hands out in one of its own, and it is a prefix of the values the writer was given |
| YPipe.YPipe.constructor | src/xutil/ypipe.hpp:9-14 | the constructors establish the invariant on an empty pipe |
| YPipe.YPipe.Push | src/xutil/yqueue.hpp:44-64 | the back cursor moves over the value just stored; a full chunk is followed by the spare or a new one |
| YPipe.YPipe.Write | src/xutil/ypipe.hpp:17-23 | the value is appended; it becomes flushable exactly when the item is complete |
| YPipe.YPipe.Flush | src/xutil/ypipe.hpp:24-37 | the whole new abstract state and the flag |
| YPipe.YPipe.CheckRead | src/xutil/ypipe.hpp:38-48 | the whole new abstract state, prefetch cursor and cell included, and the flag |
| YPipe.YPipe.PopFront | src/xutil/yqueue.hpp:65-75 | the front slot is given up and a chunk left behind is recycled |
| YPipe.YPipe.Read | src/xutil/ypipe.hpp:49-56 | hands out the first flushed value not yet handed out, and nothing exactly when there is none |
| MsgBox.InvStep | src/xnet/msgbox.hpp:29-42 | every step of any number of senders and of the owner keeps: one right to read, with the draining owner, a byte under way or a sender about to send one |
| MsgBox.InvRun | src/xnet/msgbox.hpp:29-42 | the same over every run |
| MsgBox.InitInv | src/xnet/msgbox.hpp:44-49 | the `recv` in `init` puts the reader to sleep, which establishes it |
| MsgBox.NoLostWakeup | src/xnet/msgbox.hpp:29-42 | in every reachable state a flushed unread item means that the drain loop runs, a byte is in flight or a sender is about to send one |
| MsgBox.QuiescentMeansAllHandled | src/xnet/proactor_pool.hpp:143-153 | at rest every item sent has been handled, in order |
| MsgBox.HandledInOrder | src/xnet/proactor_pool.hpp:143-153 | what has been handled is always a prefix of what was sent, in the order of the mutex |
| MsgBox.AcceptedIsSent | src/xnet/msgbox.hpp:29-35 | what is in the box is what the sequence of actions says was sent under the mutex, in that order |
| MsgBox.StepUses | src/xnet/msgbox.hpp:29-42 | every step of a sender or of the owner uses up some of a finite measure; only new calls add to it |
| MsgBox.SomeStep | src/xnet/msgbox.hpp:29-42 | as long as anything is left, some step can be made |
| MsgBox.EndsWithAllHandled | src/xnet/proactor_pool.hpp:143-153 | so a run without new calls comes to an end, and ends with every item sent handled |
| MsgBox.WakeFindsItem | src/xnet/msgbox.hpp:36-42 | the first `recv` after a wake-up finds an item |
| MsgBox.MsgBox.Send | src/xnet/msgbox.hpp:29-35 | one call: the item is appended, and a byte is sent exactly when it is the first since the owner went to sleep |
| MsgBox.MsgBox.Recv | src/xnet/msgbox.hpp:36-42 | one call: the next item, or none and the reader is asleep |
| MsgBox.MsgBox.Drain | src/xnet/proactor_pool.hpp:143-153 | the drain loop handles everything that was sent and leaves the reader asleep |
| Actors.DeliveryActorStep | src/xactor/xactor.hpp:258-262 | delivering under the actors mutex: write and flush keep the actor's account of accepted, handled and waiting messages and of its one job |
| Actors.RepostStep | src/xactor/xactor.hpp:762-770 | `check_read` says whether the job is posted again or given up, and the right to run passes on accordingly |
| Actors.ReadStep | src/xactor/xactor.hpp:269-276 | the `read` that starts a job takes the next accepted message |
| Actors.TakeJobStep | src/xutil/xworker.hpp:42-55 | a job moves from any queue, its own worker's or a stolen one, to the worker that runs it |
| Actors.InvStep | src/xactor/xactor.hpp:742-770 | every step of senders, workers, spawning and deleting keeps the engine's invariant |
| Actors.InvRun | src/xactor/xactor.hpp:742-770 | the same over every run |
| Actors.InvInit | src/xactor/xactor.hpp:549-558 | an engine without actors satisfies it; a spawned mailbox starts asleep |
| Actors.OneJobPerActor | src/xactor/xactor.hpp:742-770 | each registered actor has at most one job queued, posted or running, and exactly one whenever a flushed message is unhandled |
| Actors.ActorsRunAlone | src/xactor/xactor.hpp:762-770 | two workers are never inside jobs of the same actor |
| Actors.JobFindsMessage | src/xactor/xactor.hpp:269-276 | the `read` in `apply_once` never finds the mailbox empty |
| Actors.HandledIsAccepted | src/xactor/xactor.hpp:742-770 | each actor has handled a prefix of the messages its mailbox took, in order and each once, with jobs stolen freely |
| ActorDelivery.AcceptedIsSent | src/xactor/xactor.hpp:742-751 | what a mailbox took is what the actions alone say: the messages of those sends that reach the mutex while the actor is registered, in that order; all others change no mailbox |
| ActorDelivery.HandledInOrder | src/xactor/xactor.hpp:742-770 | each actor has handled a prefix of the messages sent to it while it was registered, in order and each once |
| ActorDelivery.IdleActorHandledAll | src/xactor/xactor.hpp:742-770 | an actor without a job anywhere and without a delivery under way has handled every message sent to it while it was registered |
| ActorProgress.StepUses | src/xactor/xactor.hpp:742-770 | every step of a sender or a worker uses up some of a finite measure; only spawning, deleting and sending add to it |
| ActorProgress.RunsEnd | src/xactor/xactor.hpp:762-770 | so no run of senders and workers alone is longer than the measure |
| ActorProgress.SomeStep | src/xactor/xactor.hpp:762-770 | as long as a delivery or a job is left, some step can be made |
| ActorProgress.EndsWithAllHandled | src/xactor/xactor.hpp:742-770 | and when no step can be made, every actor has handled every message sent to it while it was registered |
| WorkerPool.AddConserves | src/xutil/xworker_pool.hpp:22-27 | adding a job adds exactly that job to the jobs in all queues |
| WorkerPool.RemoveConserves | src/xutil/sync_queue.hpp:21-29 | taking the front of a queue removes exactly that job |
| WorkerPool.Pool.AddJob | src/xutil/xworker_pool.hpp:22-27 | the job goes to the back of the queue next in turn, with the 64-bit counter, and nothing else changes |
| WorkerPool.Pool.Pop | src/xutil/sync_queue.hpp:21-29 | the front of one queue, and none exactly when it is empty |
| WorkerPool.Pool.StealJob | src/xutil/xworker_pool.hpp:47-60 | some queue's front at the places the random numbers name; jobs are conserved; failing means those queues were empty |
| Endec.SizeOfIsLength | src/xutil/endec.hpp:46-127 | `get_sizeof` is the number of bytes `put` writes, for every value of the type family |
| Endec.RoundTrip | src/xutil/endec.hpp:240-509 | `get` on what `put` wrote, followed by anything, gives the value and leaves exactly what follows, for nested pairs, vectors, lists, maps, sets and tuples |
| Endec.EncodingsPrefixFree | src/xutil/endec.hpp:240-509 | two encodings of one type are never one a proper prefix of the other |
| EndecWire.BaseBytes | src/xutil/endec.hpp:146-400 | the bytes themselves: 1 or 0 for a truth value, numbers from the high byte down in two's complement, a text behind its length of four bytes |
| EndecWire.PartsInARow | src/xutil/endec.hpp:388-509 | pairs, tuples and containers are their parts in order, without a gap, containers behind their count |
| EndecWire.CutIsRefused | src/xutil/endec.hpp:240-509 | an encoding cut off anywhere is refused with std::out_of_range, for every type and value with texts below 2^31 bytes |
| EndecWire.TextIsRead | src/xutil/endec.hpp:363-374 | of any bytes: a text is read, refused, or read past the buffer's end exactly when its length is 2^31 or more and not there |
| EndecWire.TruthIsRead | src/xutil/endec.hpp:146-156 | every byte but zero is true |
| EndecWire.ContainerIsCollected | src/xutil/endec.hpp:427-455 | a set or a map is read from any list of elements, in any order and with keys twice: ascending, and of each key the first that comes |
| EndecBuffer.PutNumber | src/xutil/endec.hpp:255-331 | an integer is written most significant byte first at the pointer, and nothing else changes |
| EndecBuffer.PutString | src/xutil/endec.hpp:376-385 | length and bytes at the pointer |
| EndecBuffer.Put | src/xutil/endec.hpp:138-480 | `put` writes exactly the encoding at the pointer and moves the pointer behind it |
| EndecBuffer.PutAll | src/xutil/endec.hpp:401-410 | the loop over a container writes the elements one after the other |
| EndecBuffer.Get4 | src/xutil/endec.hpp:240-253 | four bytes are read or std::out_of_range is thrown |
| EndecBuffer.Get | src/xutil/endec.hpp:240-509 | `get` ends as decoding does on the bytes between pointer and end: value, exception or overrun, with the pointer behind what was used |
| EndecBuffer.GetAll | src/xutil/endec.hpp:411-455 | the loops over the count read element after element into the container |
| RpcFrames.ReqRoundTrip | src/xsimple_rpc/rpc_server.hpp:137-150 | the server reads name, id and arguments of a request body back as they were made |
| RpcFrames.RespRoundTrip | src/xsimple_rpc/detail/rpc_session.hpp:64-83 | the client reads id and result of a response body back |
| RpcFrames.RespBodyLength | src/xsimple_rpc/detail/rpc_req.hpp:29-37 | every response body is at least 27 bytes, so `len == 4` never takes a body for a header |
| RpcFrames.FrameHeader | src/xsimple_rpc/detail/rpc_req.hpp:39-96 | every frame carries its own total length |
| RpcFrames.SplitFrames | src/xsimple_rpc/detail/rpc_req.hpp:39-96 | a stream of frames, with any incomplete frame behind it, splits back into exactly the bodies it was made of |
| RpcFrames.MakeReq | src/xsimple_rpc/detail/rpc_req.hpp:38-58 | the filled buffer is one frame around id, name and encoded arguments |
| RpcFrames.MakeResp | src/xsimple_rpc/detail/rpc_req.hpp:78-96 | the filled buffer is one frame around id and result |
| RpcWire.RequestBytes | src/xsimple_rpc/detail/rpc_req.hpp:38-58 | the bytes of a request: total length, magic string, id, name, arguments |
| RpcWire.ResponseBytes | src/xsimple_rpc/detail/rpc_req.hpp:78-96 | the bytes of a response: total length, magic string, id, result |
| RpcWire.RequestIsTakenIff | src/xsimple_rpc/rpc_server.hpp:137-150 | of all bodies, the server takes exactly those that are the magic string, an id and a name, with anything behind |
| RpcWire.ResponseIsTakenIff | src/xsimple_rpc/detail/rpc_session.hpp:64-83 | of all bodies, the client takes exactly those that begin with the magic string, an id and a result |
| RpcWire.LeastLength | src/xsimple_rpc/detail/rpc_req.hpp:29-37 | the least length of a response is 31, that of one with an empty result |
| RpcPipeline.InvStep | src/xsimple_rpc/detail/rpc_session.hpp:8-91 | every event of caller, client session, server session and the two byte streams keeps the pipeline invariant and does nothing undefined |
| RpcPipeline.InvRun | src/xsimple_rpc/detail/rpc_session.hpp:8-91 | the same over every run, with bytes moving in pieces of any size |
| RpcPipeline.ServerReceiveStep | src/xsimple_rpc/rpc_server.hpp:110-131 | a header makes the session want a body of the right length, and a body is served as the request of the call whose turn it is; the session does not close |
| RpcPipeline.ServeStep | src/xsimple_rpc/rpc_server.hpp:137-157 | whatever the service answers joins the queue behind the answers before it, or the session ends when the service throws |
| RpcPipeline.AcceptsOwnResponse | src/xsimple_rpc/detail/rpc_session.hpp:64-83 | the client takes the response to the call in front of its waiting list |
| RpcPipeline.ClientReceiveStep | src/xsimple_rpc/detail/rpc_session.hpp:48-91 | the receive callback finds the call it expects: the list is not empty and the id test succeeds |
| RpcPipeline.LostStep | src/xsimple_rpc/detail/rpc_session.hpp:92-110 | closing fails exactly the calls not answered yet and leaves the others as they are |
| RpcPipeline.ResponsesAlwaysMatch | src/xsimple_rpc/detail/rpc_session.hpp:64-80 | in every reachable state the next response is for the front of the waiting list, so no run closes the client over an id |
| RpcPipeline.EachCallerGetsItsOwnResult | src/xsimple_rpc/rpc_proactor_pool.hpp:131-149 | a call that is done has the very answer the service gave to its own request, even where two calls are equal and the service answers differently, and even after others timed out or were cancelled |
| RpcPipeline.WaitingListIsWhatIsUnderWay | src/xsimple_rpc/detail/rpc_session.hpp:14-24 | the waiting list is, in order, the ids in the response stream, the server's queue, the request being served and the request stream |
| RpcPipeline.NeverCloses | src/xsimple_rpc/detail/rpc_session.hpp:8-110 | in a run in which the service never throws and no connection is lost neither session ever closes |
| RpcPipeline.EveryCallIsAnswered | src/xsimple_rpc/detail/rpc_session.hpp:8-91 | when nothing is unsent, under way or being served, every call of such a run is done with its own answer, or was cancelled |
| RpcPipeline.SomeStep | src/xsimple_rpc/detail/rpc_session.hpp:8-91 | and as long as something is, some step can be made |
| RpcProgress.StepGoesDown | src/xsimple_rpc/detail/rpc_session.hpp:8-91 | every step of sessions and streams goes down in an order without infinite descent, or changes nothing |
| RpcProgress.ReachesQuiet | src/xsimple_rpc/detail/rpc_session.hpp:8-91 | from every reachable state in which the server has not closed, steps of sessions and streams lead to one in which nothing is left to do |
| RpcProgress.CancelledIff | src/xsimple_rpc/rpc_proactor_pool.hpp:131-149 | a call that has been answered ends as cancelled exactly if it was cancelled after its answer had come; an earlier cancelling is overwritten |
| RpcProgress.EveryCallEndsAs | src/xsimple_rpc/rpc_proactor_pool.hpp:131-149 | when nothing is left to do, every call is done with its own answer, or was cancelled after that had come |
| RpcSessions.ClientSession.PushRpcReq | src/xsimple_rpc/detail/rpc_session.hpp:8-13 | the call waits behind all others |
| RpcSessions.ClientSession.DoSendRpc | src/xsimple_rpc/detail/rpc_session.hpp:14-24 | the next request is sent when none is being sent, and joins the waiting list; one send at most is under way, and the order of the calls is kept |
| RpcSessions.ClientSession.OnSent | src/xsimple_rpc/detail/rpc_session.hpp:28-37 | the next one follows, if there is one |
| RpcSessions.ClientSession.CloseSession | src/xsimple_rpc/detail/rpc_session.hpp:92-110 | exactly the calls that wait get the error, in place |
| RpcSessions.ClientSession.OnReceived | src/xsimple_rpc/detail/rpc_session.hpp:48-91 | a header below 31 closes, any other sets what is wanted; a body closes exactly when it is no response to the call that waits longest, and otherwise gives that call its result and changes no other; the sending side is left alone |
| RpcSessions.ServerSession.DoSendResp | src/xsimple_rpc/rpc_server.hpp:46-55 | send at once or queue: the response goes out after all the others, one at a time |
| RpcSessions.ServerSession.OnSent | src/xsimple_rpc/rpc_server.hpp:58-79 | what was sent leaves, the queue's front is sent next |
| RpcSessions.ServerSession.OnReceived | src/xsimple_rpc/rpc_server.hpp:110-131 | the two receive steps: a header sets the length wanted, a well-formed body is served, anything else closes; nothing that is to go out is touched |
| RpcSessions.ServerSession.Serve | src/xsimple_rpc/rpc_server.hpp:137-157 | the answer goes out after all the others, or the session closes when the service throws |
| Json.TextRoundTrip | src/xjson/xjson.hpp:764-826 | an escaped string is read back, or refused exactly when it has a carriage return |
| Json.NumberItem | src/xjson/xjson.hpp:871-962 | a non-negative number comes back exactly up to the greatest int64, and reading stops at its end |
| Json.StringSurvivesIffNoReturn | src/xjson/xjson.hpp:631-669 | a string comes back exactly when it has no carriage return, and is refused otherwise |
| Json.ItemIsRead | src/xjson/xjson.hpp:899-1084 | what the recursive parser makes of every printed value without null members: the value, another one (empty containers come back as null), an exception, or (a minus sign) nothing ever; it stops exactly at the value's end |
| Json.ItemsAreRead | src/xjson/xjson.hpp:899-967 | the loop of `get_vec` on every printed list |
| Json.MembersAreRead | src/xjson/xjson.hpp:977-1084 | the loop of `get_obj` on every printed list of members |
| Json.BackIff | src/xjson/xjson.hpp:671-727 | exactly the plain values are read back as they were |
| Json.BuildReads | src/xjson/xjson.hpp:1086-1095 | what `build` makes of every printed array or object without null members |
| Json.EmptyKeyRefused | src/xjson/xjson.hpp:1041-1047 | keys are printed as they are, and an object whose first key is empty is refused at the colon |
| JsonNulls.TooDeep | src/xjson/xjson.hpp:977-1084 | the loop of `get_obj` one level too deep reads on beyond the level the text is at, or ends in null, an exception or no end |
| JsonNulls.ValueOverrun | src/xjson/xjson.hpp:899-1084 | a printed value of any depth is read up to its end or the reading is lost; with a null member in it, it runs over its end or is lost |
| JsonNulls.NullMemberIsLost | src/xjson/xjson.hpp:1015-1026 | a document with a null member, at any depth, is built as null, ends in an exception, or never ends |
| JsonNulls.BuildInvertsPrintIff | src/xjson/xjson.hpp:1086-1095 | for all documents with admissible keys, nulls wherever they are: `build(v.str())` is v, to the end of the text, if and only if numbers are from 0 to the greatest int64, strings have no carriage return, no container is empty and no member is null |
| Json.PrintInjective | src/xjson/xjson.hpp:671-727 | two plain documents with the same text are the same |
| Json.NullMemberReadsOn | src/xjson/xjson.hpp:1015-1026 | the case for null runs on into the case for an object, which reads what follows as one |
| Json.NullMemberLosesTheObject | src/xjson/xjson.hpp:1015-1026 | in particular, an object of plain and null members with a null one among them is built as null |
| JsonText.EncodeText | src/xjson/xjson.hpp:631-669 | the loop over the characters computes the escaped text |
| JsonText.ToText | src/xjson/xjson.hpp:671-727 | the printer, appending and taking back the last comma, computes the printed text |
| JsonText.ReadText | src/xjson/xjson.hpp:764-826 | `get_text` with its position: result, exception and position |
| JsonText.ReadDigits | src/xjson/xjson.hpp:871-897 | the loop of `get_num` |
| JsonText.ParseVec | src/xjson/xjson.hpp:899-967 | `get_vec` with its position: same result as the function, and termination |
| JsonText.ParseTurn | src/xjson/xjson.hpp:991-1083 | one turn of the loop of `get_obj` |
| JsonText.ParseObj | src/xjson/xjson.hpp:977-1084 | `get_obj` with its position: same result as the function, and termination |
| JsonText.BuildText | src/xjson/xjson.hpp:1086-1095 | the running parser ends as `build` does on every text; from every text of a plain document, however spaced and escaped, it gives that document; from the printed text of a document it gives the document exactly when that is plain |
| JsonDocuments.BuildReadsText | src/xjson/xjson.hpp:1086-1095 | every text of a plain document, with blanks, tabs, returns and newlines wherever the loops allow them, any escapes, leading zeros and members in any order, is built as that document |
| JsonDocuments.DocRead | src/xjson/xjson.hpp:899-1084 | the same inside any text: the value is read, and reading stops at its end |
| JsonDocuments.PutStores | src/xjson/xjson.hpp:1041-1083 | a member goes to its place among the keys, the last of several with one key stays |
| JsonDocuments.MembersAre | src/xjson/xjson.hpp:977-1084 | what an object holds after its members: for each key the value given last, and no other key |
| JsonDocuments.LessIff | src/xjson/xjson.hpp:1041-1083 | keys are ordered by their first different character |
| JsonDocuments.PrintedString | src/xjson/xjson.hpp:631-669 | no printed string has a raw control character of those escaped or an unescaped quote, and it stands for the characters printed |
| JsonDocuments.PrintedNumber | src/xjson/xjson.hpp:671-727 | a number is printed in decimal digits without leading zeros |
| JsonTokens.StringIff | src/xjson/xjson.hpp:764-826 | of all texts, exactly those that consist of characters as they are and of escapes that there are, up to a quote, are read as a string, and as that string |
| JsonTokens.NumberIff | src/xjson/xjson.hpp:871-897 | of all texts, exactly those of digits with no point behind and a value up to the greatest int64 are read as a number, and as that number; exactly a minus sign is never got over |
| JsonTokens.WordIff | src/xjson/xjson.hpp:828-869 | of all texts, exactly true, false and null with no letter behind are read as words |
| Utf8.AcceptsIff | src/xmqtt/detail/check_ut8.hpp:26-156 | accepted are exactly the encodings (section 3 of RFC 3629) of code points that are neither zero nor in U+0080..U+07FF |
| Utf8.RightIffNoTwoByteCharacter | src/xmqtt/detail/check_ut8.hpp:73-80 | a text of characters is accepted exactly when none of them is U+0000 or takes two bytes |
| Utf8.TwoByteCharacterRefused | src/xmqtt/detail/check_ut8.hpp:73-80 | the encoding of U+00E9 is refused whatever follows it |
| Utf8.CheckUtf8 | src/xmqtt/detail/check_ut8.hpp:26-156 | the loop terminates on every input and decides acceptance |
| MqttMessages.ParsedTopicsOk | src/xmqtt/detail/msg_parser.hpp:424-622 | whatever the bytes, a body is handed on with non-empty well-formed topics only |
| MqttMessages.ReadTopic | src/xmqtt/detail/msg_parser.hpp:436-443 | length, text and check, with the offset moved behind them |
| MqttMessages.ReadPublish | src/xmqtt/detail/msg_parser.hpp:424-468 | the publish reader computes the body or refuses |
| MqttMessages.ReadSubscribe | src/xmqtt/detail/msg_parser.hpp:515-565 | the loop over the filters |
| MqttMessages.ReadUnsubscribe | src/xmqtt/detail/msg_parser.hpp:591-627 | the loop over the topics |
| MqttMessages.ReadConnect | src/xmqtt/detail/msg_parser.hpp:295-399 | the reading of a CONNECT with an offset: part after part, those with flags when they are set |
| MqttMessages.ReadSubscribeAck | src/xmqtt/detail/msg_parser.hpp:563-589 | the loop over the codes, each read from the front of the body |
| MqttParser.ShiftBindsTighter | src/xmqtt/detail/msg_parser.hpp:205-209 | `value & 0x7f << shift` on a byte with the continuation bit, shift by shift |
| MqttParser.JoinedBitsAreApart | src/xmqtt/detail/msg_parser.hpp:205-214 | the bits joined by `|=` never overlap, so joining is adding |
| MqttParser.TurnKeepsOk | src/xmqtt/detail/msg_parser.hpp:183-243 | every byte leads to a state the parser can be in |
| MqttParser.FeedJoins | src/xmqtt/detail/msg_parser.hpp:48-74 | feeding two pieces is feeding them joined, until a packet is refused |
| MqttParser.CuttingDoesNotMatter | src/xmqtt/detail/msg_parser.hpp:48-74 | under every cutting the handlers get the same messages and the parser ends in the same state, up to the first rejected packet |
| MqttStreams.StreamMeansItsPackets | src/xmqtt/detail/msg_parser.hpp:48-74 | one call does with a stream what its packets say, taken apart without the parser: messages handed on and verdict |
| MqttStreams.CallerSeesTheSameIff | src/xmqtt/detail/msg_parser.hpp:48-74 | a caller that gives up on false learns the same messages and verdict under every cutting exactly when no packet without a body is the first to be refused and another is handed on after it |
| MqttStreams.RefusalForgotten | src/xmqtt/detail/msg_parser.hpp:228-231 | two pings, the first with a reserved bit, are such a stream for every handler: `status_` of the first is overwritten by the second |
| MqttParser.HandlersGetWellFormedTopics | src/xmqtt/detail/msg_parser.hpp:424-622 | in every run every topic a handler gets is not empty and well-formed |
| MqttParser.FeedBody | src/xmqtt/detail/msg_parser.hpp:235-243 | body bytes taken together are body bytes taken one by one |
| MqttParser.PacketParser.ParseLength | src/xmqtt/detail/msg_parser.hpp:200-227 | the loop over the length bytes, with its early returns |
| MqttParser.PacketParser.ParseFixedHeader | src/xmqtt/detail/msg_parser.hpp:183-233 | consumes at least one byte and ends where the machine does |
| MqttParser.PacketParser.StoreRemainingData | src/xmqtt/detail/msg_parser.hpp:235-243 | takes at least one byte, up to the body's end, and says whether the body is full |
| MqttParser.PacketParser.DoParse | src/xmqtt/detail/msg_parser.hpp:48-74 | one chunk: the machine's state, the messages handed on and the verdict; every turn consumes at least one byte |
| MqttPacker.PackedLengthIsRead | src/xmqtt/detail/msg_packer.hpp:6-32 | what the parser makes of every packed length below 2^28 |
| MqttPacker.LengthSurvivesIff | src/xmqtt/detail/msg_packer.hpp:6-32 | a length is read as packed exactly below 2^14, or when its middle bits happen to fit |
| MqttPacker.PacketIsHandled | src/xmqtt/detail/msg_parser.hpp:48-74 | a packet is handed to its handler when its last byte has been fed, and the parser is ready for the next |
| MqttPacker.TopicSurvivesIff | src/xmqtt/detail/msg_packer.hpp:34-41 | a packed topic is read back exactly when it is not empty and check_utf8 takes it |
| MqttPacker.PublishIsRead | src/xmqtt/detail/msg_parser.hpp:424-468 | what is read of every packed publish: refused exactly for a bad topic, id kept exactly with a QoS, payload exactly when not empty |
| MqttPacker.PublishHeader | src/xmqtt/detail/msg_packer.hpp:197-200 | duplicate and retain flags survive as truth values, the QoS as it is |
| MqttPacker.SubscribeIsRead | src/xmqtt/detail/msg_parser.hpp:515-565 | a packed subscription is read back exactly when it has filters, all with good topics and a QoS below four |
| MqttPacker.UnsubscribeIsRead | src/xmqtt/detail/msg_parser.hpp:591-627 | a packed unsubscription is read back exactly when all topics are good |
| MqttPacker.SubscribeAckSurvivesIff | src/xmqtt/detail/msg_parser.hpp:568-589 | the return codes of a subscribe-ack survive exactly when each equals the high byte of the packet id |
| MqttPacker.BodySurvives | src/xmqtt/detail/msg_packer.hpp:105-304 | every packable message's body is read back |
| MqttPacker.StreamRoundTrip | src/xmqtt/detail/msg_packer.hpp:105-304 | packed messages in a row, cut in any way, are handed on one by one as they were |
| MqttPackBuffer.EncodeVarint32 | src/xmqtt/detail/msg_packer.hpp:6-32 | the branches over the length write its bytes through the moving pointer |
| MqttPackBuffer.CopyString | src/xmqtt/detail/msg_packer.hpp:34-41 | length and bytes through the offset |
| MqttPackBuffer.PackPublish | src/xmqtt/detail/msg_packer.hpp:187-223 | the buffer cut to size is the packet |
| MqttPackBuffer.BufferSufficesIff | src/xmqtt/detail/msg_packer.hpp:115-117 | the buffer of a subscription or unsubscription, remaining length and four, holds the packet exactly when the length does not take four bytes |
| MqttPackBuffer.PackSubscribe | src/xmqtt/detail/msg_packer.hpp:105-133 | the two loops over the filters: size, then bytes |
| MqttPackBuffer.PackUnsubscribe | src/xmqtt/detail/msg_packer.hpp:135-160 | the two loops over the topics: size, then bytes |
| MqttPackBuffer.PackAck | src/xmqtt/detail/msg_packer.hpp:248-304 | the four bytes of the acknowledgements |
| MqttWire.BodyIsReadIff | src/xmqtt/detail/msg_parser.hpp:295-700 | of all headers and bytes, exactly those are read as a message that are its bytes, written out field by field, for every kind of packet |
| MqttWire.ConnectIff | src/xmqtt/detail/msg_parser.hpp:295-399 | the body of a CONNECT is protocol, level, flags, keep-alive, client, will, user name, password, each optional part there exactly with its flag, and is refused in every other case |
| MqttWire.PublishIff | src/xmqtt/detail/msg_parser.hpp:424-468 | the body of a PUBLISH is topic, id exactly with a QoS, payload |
| MqttWire.FirstByteIsRead | src/xmqtt/detail/msg_parser.hpp:187-195 | the first byte: kind in the high half, then dup, two bits of QoS, retain |
| MqttWire.PackedBytes | src/xmqtt/detail/msg_packer.hpp:94-304 | first byte, by its number, and body of every packed message, written out |
| MqttWire.PacketBytes | src/xmqtt/detail/msg_packer.hpp:6-32 | a packet is its first byte, its length as MQTT has it, in as few bytes as can be, and its body |
| MqttConnect.PackedConnectIsRead | src/xmqtt/detail/msg_packer.hpp:43-91 | what is read of every packed CONNECT: all as it was but the low byte of the keep-alive, the will's QoS and the reserved bit, or nothing when a part is empty or badly encoded |
| MqttConnect.ConnectSurvivesIff | src/xmqtt/detail/msg_packer.hpp:43-91 | a CONNECT is read back as it was packed exactly with a keep-alive of zero or with a low byte of one, a will QoS of 0 or 3, no reserved bit, and no empty part |
| MqttConnect.KeepAliveOfAMinute | src/xmqtt/detail/msg_packer.hpp:74-75 | a keep-alive of 60 arrives as 1 |
| MqttConnect.FlagsKept | src/xmqtt/detail/msg_packer.hpp:65-72 | the flags come out as they were exactly without the reserved bit and with a QoS of 0 or 3 |
| MqttConnect.PackConnect | src/xmqtt/detail/msg_packer.hpp:43-91 | the buffer, filled part by part and cut to size, is the packet |
| WebSocketFrames.XorTwice | src/xwebsocket/frame_parser.hpp:243-249 | masking twice with one key byte gives the byte back |
| WebSocketFrames.MaskedTwice | src/xwebsocket/frame_parser.hpp:243-249 | unmasking with the key, each payload byte with its own key byte, undoes masking |
| WebSocketFrames.XorIsExclusive | src/xwebsocket/frame_builder.hpp:88-96 | masking is exclusive or: a bit is set if and only if the bits of byte and key differ |
| WebSocketWire.FrameBytes | src/xwebsocket/frame_builder.hpp:32-104 | every byte of a frame, bit by bit: FIN and opcode, mask bit and length in its three forms, key, and the payload masked with it |
| WebSocketWire.BytesMeanTheirMessages | src/xwebsocket/frame_parser.hpp:60-104 | one call does with any bytes what an independent reading of section 5.2 of RFC 6455 says: the messages in it, up to a part left over |
| WebSocketStandard.StandardFrameIff | src/xwebsocket/frame_parser.hpp:118-156 | of all frames as section 5.2 of RFC 6455 has them, exactly those are handed on as they were sent, with the parser ready for the next, that have reserved bits only beside FIN and a masking key only with a payload |
| WebSocketStandard.EmptyFrameTaken | src/xwebsocket/frame_parser.hpp:150-156 | of a masked frame without a payload the key is left over and taken for what comes next |
| WebSocketStandard.StandardStream | src/xwebsocket/frame_parser.hpp:60-104 | any number of the frames that are taken as sent, in one call, are handed on as they were sent |
| WebSocketFrames.FeedJoins | src/xwebsocket/frame_parser.hpp:60-104 | within a call, pieces one after the other are the pieces joined |
| WebSocketFrames.FeedExt | src/xwebsocket/frame_parser.hpp:155-186 | bytes of the extended length taken together |
| WebSocketFrames.FeedPayload | src/xwebsocket/frame_parser.hpp:231-266 | payload bytes taken together, and the callback when the payload is complete |
| WebSocketStreams.FrameRoundTrip | src/xwebsocket/frame_builder.hpp:32-104 | from rest the parser takes any frame of make_frame, masked or not, hands on payload, opcode and FIN as they were, and rests again |
| WebSocketStreams.StreamRoundTrip | src/xwebsocket/frame_builder.hpp:32-104 | any frames in a row in one buffer are handed on as they were sent, in order, and nothing is left over |
| WebSocketStreams.HarmlessCuttingDoesNotMatter | src/xwebsocket/frame_parser.hpp:60-104 | any stream of bytes cut only where no field counted within a call is under way gives the same messages and ends in the same state |
| WebSocketCuts.CutInLength | src/xwebsocket/frame_parser.hpp:162-191 | a cut inside a length of two bytes always spoils the message; inside one of eight exactly when the length is no multiple of 256 to the number of its bytes after the cut |
| WebSocketCuts.CutInKey | src/xwebsocket/frame_parser.hpp:225-237 | a cut inside the key: the payload comes out masked with the key that is left, its later bytes stored over its first |
| WebSocketCuts.CutInPayload | src/xwebsocket/frame_parser.hpp:239-249 | a cut inside a payload: without a mask nothing happens, with one the rest is unmasked from the key's first byte again |
| WebSocketCuts.CutHarmlessIff | src/xwebsocket/frame_parser.hpp:60-104 | for every frame and every cut: the two calls deliver the frame as it was sent and rest if and only if the bytes of length, key and cut meet `CutOk` |
| WebSocketCuts.StreamCutHarmlessIff | src/xwebsocket/frame_parser.hpp:60-104 | the same for every stream of frames, cut anywhere in any of them |
| WebSocketStreams.SmallStreamsUnderEveryCutting | src/xwebsocket/frame_parser.hpp:60-104 | unmasked frames of at most 125 bytes are handed on as sent under every cutting |
| WebSocketParser.FrameMaker.SetMaskingKey | src/xwebsocket/frame_builder.hpp:16-21 | mask bit and key are set |
| WebSocketParser.FrameMaker.SetFin | src/xwebsocket/frame_builder.hpp:22-26 | FIN is set |
| WebSocketParser.FrameMaker.MakeFrame | src/xwebsocket/frame_builder.hpp:32-104 | the buffer written through the offset is the frame of the maker's settings; an empty payload is not masked |
| WebSocketParser.FrameParser.ParseExtendedPayloadLen | src/xwebsocket/frame_parser.hpp:155-186 | part or all of the extended length |
| WebSocketParser.FrameParser.ParseMaskingKey | src/xwebsocket/frame_parser.hpp:218-229 | part or all of the key |
| WebSocketParser.FrameParser.ParsePayload | src/xwebsocket/frame_parser.hpp:231-266 | payload bytes; nothing is consumed only for a length of zero that was written long |
| WebSocketParser.FrameParser.DoParse | src/xwebsocket/frame_parser.hpp:60-104 | one call ends in the machine's state with the machine's messages; an empty buffer throws; the loop terminates |
| Sha1.ShiftIsRotation | src/xutil/sha1.hpp:258-263 | circular_shift is rotation for the three distances used |
| Sha1.ChooseIsCh | src/xutil/sha1.hpp:169-178 | the choice with or is the standard's with exclusive or |
| Sha1.MajorityIsMaj | src/xutil/sha1.hpp:190-200 | the same for the majority |
| Sha1.RoundSumIs | src/xutil/sha1.hpp:169-212 | the sum of a round is the standard's, in whatever order it is added |
| Sha1.AnySplitGivesTheDigest | src/xutil/sha1.hpp:33-84 | however a message is split into `input` calls, `result` gives the fold over the padded message, exactly if its length is below 2^64 bits; otherwise the object is corrupted |
| Sha1.InputAfterResultCorrupts | src/xutil/sha1.hpp:57-66 | any input after a result spoils the object for good |
| Sha1.DigestFrom | src/xutil/sha1.hpp:222-256 | the digest from the point where the full blocks are folded in |
| Sha1Example.DigestOfAbc | src/xutil/sha1.hpp:143-256 | the digest of the message abc is the one in FIPS 180-4's example |
| Sha1Example.ConstantsAreRoots | src/xutil/sha1.hpp:143-152 | each K is the integer part of 2^30 times the square root of 2, 3, 5 or 10 |
| Sha1Example.ChooseOnBits | src/xutil/sha1.hpp:169-178 | the choice takes each bit from the second or third word as the first says |
| Sha1Example.MajorityOnBits | src/xutil/sha1.hpp:190-200 | each bit is that of at least two of the three words |
| Sha1Example.PadIs | src/xutil/sha1.hpp:222-256 | the padded message: the message, a byte 0x80, the fewest zeros that fit, and the length in bits in eight bytes |
| Sha1.Hasher.ProcessMessageBlock | src/xutil/sha1.hpp:143-220 | the loops compute the compression function of section 6.1.2 of FIPS 180-4 |
| Sha1.Hasher.ExpandWords | src/xutil/sha1.hpp:154-165 | the two loops compute the message schedule |
| Sha1.TwentyRounds | src/xutil/sha1.hpp:173-212 | each of the four loops computes twenty rounds |
| Sha1.Hasher.Input | src/xutil/sha1.hpp:57-84 | the new state after any input, spoiled or not |
| Sha1.Hasher.PadMessage | src/xutil/sha1.hpp:222-256 | both branches end with the digest of all that was put in |
| Sha1.Hasher.Result | src/xutil/sha1.hpp:33-55 | the digest, and the same again when asked again; nothing when corrupted |
| Metadata.RecordRoundTrip | src/xraft/detail/metadata.hpp:133-174 | every record is read back as it was built |
| Metadata.RecordBytes | src/xraft/detail/metadata.hpp:133-174 | the bytes of a record: length, kind, and key and value behind their lengths |
| Metadata.FileRoundTrip | src/xraft/detail/metadata.hpp:233-293 | a file of records loads as the records applied in order |
| Metadata.StepKeepsAgreement | src/xraft/detail/metadata.hpp:57-92 | after every set, del, clear or snapshot the files give what is in memory, with the slot of an outstanding compacting set put back to what it was |
| Metadata.RunKeepsAgreement | src/xraft/detail/metadata.hpp:57-92 | the same over every run |
| Metadata.AtMostOneSlotLost | src/xraft/detail/metadata.hpp:175-188 | in every run memory and files differ in at most one slot of one map, that of the last set that itself compacted, which has its old value on file |
| Metadata.DiskIsMemoryIff | src/xraft/detail/metadata.hpp:57-92 | they are the same exactly when no such set is outstanding or it wrote the value that was there |
| Metadata.SnapshotHeals | src/xraft/detail/metadata.hpp:310-333 | right after a bare snapshot, a clear, or a del that compacts at either of its records nothing is lost |
| Metadata.CompactingSetIsLost | src/xraft/detail/metadata.hpp:57-69 | a set that fills the log is lost to a restart |
| MetadataStore.BuildLog | src/xraft/detail/metadata.hpp:133-174 | the buffer filled through the pointer is the record |
| MetadataStore.WriteStrings | src/xraft/detail/metadata.hpp:219-232 | the loop over the map writes records that load as the map |
| MetadataStore.MetadataFile.MakeSnapshot | src/xraft/detail/metadata.hpp:310-333 | the new snapshot loads as the maps in memory, and the log is empty |
| MetadataStore.MetadataFile.WriteLog | src/xraft/detail/metadata.hpp:175-188 | the record is appended, and the log compacted when it has grown to the limit |
| MetadataStore.MetadataFile.SetText | src/xraft/detail/metadata.hpp:57-62 | the map of strings has the value at the key and is otherwise as before, the other map is untouched, and the log is longer by the record, or compacted |
| MetadataStore.MetadataFile.SetNumber | src/xraft/detail/metadata.hpp:63-69 | the same for integers |
| MetadataStore.MetadataFile.Del | src/xraft/detail/metadata.hpp:70-92 | found exactly when either map has the key; afterwards neither has it, and both are otherwise as before |
| MetadataStore.MetadataFile.Clear | src/xraft/detail/metadata.hpp:35-48 | maps and files are emptied |
| MetadataStore.MetadataFile.Close | src/xraft/detail/metadata.hpp:30-34 | the destructor's snapshot leaves nothing lost |
| MetadataStore.MetadataFile.WriteSnapshot | src/xraft/detail/metadata.hpp:111-126 | the snapshot for another node loads as the strings only |
| MetadataStore.MetadataFile.LoadStream | src/xraft/detail/metadata.hpp:233-293 | the loop applies the records in order, or throws on a torn file |
| MetadataStore.Restart | src/xraft/detail/metadata.hpp:189-218 | a restart loads snapshot, then log, which is what the machine says is on disk |
| LogEntries.ToStringSize | src/xraft/detail/raft_proto.hpp:39-57 | bytes() is the size of the buffer: 24 and the data, three more than is written |
| LogEntries.EntryRoundTrip | src/xraft/detail/raft_proto.hpp:39-69 | an entry is read back as it was written, the zeros left over notwithstanding |
| LogEntries.RecordBytes | src/xraft/detail/raft_proto.hpp:39-57 | the bytes of an entry, of its record and of its position, written out |
| LogEntries.EncodeEntry | src/xraft/detail/raft_proto.hpp:47-57 | the writes through the pointer give the string |
| LogEntries.DecodeEntry | src/xraft/detail/raft_proto.hpp:58-69 | the reads through the pointer give the entry, or false when the buffer is too short |
| LogEntries.RecordAt | src/xraft/detail/filelog.hpp:33-51 | at the position of an entry the data file has its record |
| LogEntries.PositionAt | src/xraft/detail/filelog.hpp:33-51 | at 16 times its number the index file has its index and position |
| LogFile.File.Write | src/xraft/detail/filelog.hpp:33-51 | a segment is longer by the entry; both cursors are at the end |
| LogFile.File.GetDataFileOffset | src/xraft/detail/filelog.hpp:195-223 | the position of an entry, and failure exactly when the index is not in the segment |
| LogFile.File.GetEntry | src/xraft/detail/filelog.hpp:81-100 | the entry, an exception exactly when the index is not in the segment, cursors back at the end of file |
| LogFile.File.GetEntries | src/xraft/detail/filelog.hpp:53-79 | the slice of the segment, with index and count moved on, cursors back at the end of file |
| LogFile.File.GetLogStart | src/xraft/detail/filelog.hpp:235-249 | the first index, read once and remembered |
| LogFile.HasIff | src/xraft/detail/filelog.hpp:195-223 | the test against first and last index says whether an entry has the index |
| LogFile.SliceMeans | src/xraft/detail/filelog.hpp:53-79 | a slice is what there is from an index on, in a row, as many as asked for or to the end |
| FileLog.PartGivesBeginning | src/xraft/detail/filelog.hpp:335-364 | what a part of the log has from an index on is the beginning of what the log has |
| FileLog.SearchPart | src/xraft/detail/filelog.hpp:335-364 | searching a part leaves exactly the rest to be found |
| FileLog.KeptGrows | src/xraft/detail/filelog.hpp:537-545 | what eviction keeps of a growing log depends only on what it kept before |
| FileLog.LastIsKeptIff | src/xraft/detail/filelog.hpp:537-545 | the last entry is kept exactly when it alone is within the budget |
| FileLog.Filelog.CheckLogEntriesSize | src/xraft/detail/filelog.hpp:537-545 | eviction leaves exactly the longest end of the cache that the budget allows |
| FileLog.Filelog.CheckCurrentFileSize | src/xraft/detail/filelog.hpp:546-562 | a segment is put away exactly when it is longer than the limit, and the log stays as it is |
| FileLog.Filelog.Write | src/xraft/detail/filelog.hpp:304-333 | for every cache budget and size limit the log is the old sequence and the one entry; the cache is empty afterwards exactly when the entry's size, 24 and the data, is over the budget, and a segment is put away exactly when this record takes it over the limit |
| FileLog.Filelog.GetEntriesFromCache | src/xraft/detail/filelog.hpp:504-521 | the slice of the cache, with index and count moved on |
| FileLog.Filelog.GetEntry | src/xraft/detail/filelog.hpp:335-353 | the entry of the sequence with that index, or an empty one |
| FileLog.Filelog.GetEntries | src/xraft/detail/filelog.hpp:354-379 | the slice of the sequence from that index on, of at most count entries |
| FileLog.Filelog.GetLastLogEntryTerm | src/xraft/detail/filelog.hpp:463-469 | the term of the last entry exactly when that entry's size is within the cache budget, and zero otherwise |

## Left out

* The asynchronous RPC client (`src/xsimple_rpc/async_client.hpp`), whose matching by queue order is that of the session modelled here.
* Actor sessions, handshakes and timers, and the shutdown of engine and pools; actors are keyed by actor id, since the engine id is always 0, and ids are taken to be fresh.
* The mailboxes use several chunk sizes; chunk size is a parameter, any size of at least one.  The `prev` pointers of chunks are written as the program does, but it never reads them, and nothing is stated of them.  Values moved through pipes are plain values.
* The setting-up of the connection that carries wake-up bytes; bytes sent are taken to arrive.
* Sockets, event loops, timers, threads as objects of the system, clocks; an `async_recv(n)` delivers exactly n bytes, streams are reliable.
* Failures of files, of memory and of writes; a file is a sequence of bytes with a cursor, as `src/xutil/detail/win_file_stream.hpp` moves it, and compaction with its renaming of files is one step.
* Assertions are taken to be compiled out.  Shifts and masks are written as division and remainder, joining of disjoint bits as addition, exclusive or bit by bit; `MqttParser.ShiftBindsTighter` and `Sha1` use words of 32 bits.
* 16-bit and floating-point values and user types in the encoding; containers of 2^31 or more elements.
* WebSocketParser.FrameParser.DoParse: an announced payload of 2^32 bytes or more, which the program compares in 32 bits, is not followed.
* JSON numbers with a point are one outcome without a value; the order of a map is given by the values themselves.
* Where a JSON loop of the program would turn without moving, the method of `JsonText` ends with an outcome of its own.
* MqttParser.PacketParser.DoParse: a fifth byte of a remaining length, which MQTT does not allow, is not followed, and unbound handlers are not modelled.
* MqttPacker.StreamRoundTrip: connect is not among the messages, because its packer spoils keep-alive and flags (`MqttConnect.ConnectSurvivesIff`); disconnect has no packer.
* WebSocketCuts.CutHarmlessIff: a frame cut once; what several cuts within one frame do together is not stated, except that none harms a small unmasked frame.
* JsonNulls.BuildInvertsPrintIff: keys are printed without escapes, so keys that are empty or hold a quote, a backslash or a zero character are not admitted; an empty first key is refused (`Json.EmptyKeyRefused`).
* MqttPackBuffer.PackSubscribe: bodies of 2^21 bytes and more, where the program writes past its buffer, are not admitted.
* MqttPackBuffer.PackUnsubscribe: the same.
* FileLog.Filelog.Write: append-only, with consecutive indices above zero; overwriting, truncation, reopening and the snapshot trigger are not modelled.
* FileLog.Filelog.GetEntries: a count of zero, on which the program's counter wraps round, and an index of zero on an empty segment, which reads past the file, are not admitted.
* MetadataStore.MetadataFile.LoadStream: a record shorter than its fields say, on which the program reads past its buffer, is not admitted.
* Cluster-level Raft, the HTTP, multipart, Redis and socket.io code, MD5, base64, CRC16 and the MIME table.
