# Verification of the data plane shared libraries

A Dafny model of the parts of the repository whose correctness is hardest to see, and proofs about it.
`dafny verify dfyconfig.toml` checks everything.

The centre is the SOCKS5 proxy through which an enclave reaches the network:

* `Blocks.dfy`, `Layout.dfy`, `Buffer.dfy`: the scatter-gather buffer, a linked list of blocks that
  implements a byte queue. A reservation at the back and a view of the front may be outstanding at the
  same time. All memory ever linked into a buffer is thought of as one line, on which the queue is a
  stretch; every operation is proved to move the ends of that stretch, and to read or write the
  memory, exactly as a queue would. `Layout.dfy` has the arithmetic of that line, without the heap.
* `Freelist.dfy`, `Client.dfy`, `Pool.dfy`: the freelist from which the buffers take their blocks and to
  which they give them back; a user of a buffer, who keeps the spans that were handed out and writes
  and reads through them; and any number of such users whose buffers share the freelist. Blocks go from
  buffer to buffer; still, what is done to one buffer changes no other, and no block is lost or held
  twice.
* `Socks5.dfy`, `Driver.dfy`, `Socks5Laws.dfy`: the handshake as a pure step function, the loop that
  drives it, and what holds of all its runs. What the callbacks answer is an arbitrary function of
  what the handshake has done so far.
* `Socks5State.dfy`: the handshake as an object over a real buffer, which refines the step function.
* `Wire.dfy`: the two clients of the proxy and their agreement with the server.
* `Pipe.dfy`, `Bridge.dfy`: the bridge between client and destination. The eight flags are four for each
  direction. A read really fills the memory that was reserved for it, and a write really takes its
  bytes from the memory that was shown to it; what comes out is what went in.

Then there are protocols and codecs of their own: the timed executor (`Executor.dfy`), the pending calls
of an HTTP/2 connection (`PendingCalls.dfy`), the noise-free bookkeeping of differentially private metrics
(`Histogram.dfy`, `Contribution.dfy`), the response framing (`Framing.dfy`) and the conversion of
durations and times (`ProtoTime.dfy`). Concurrent code is a class with one method for each atomic step;
its invariants hold whatever the order of the steps.

Invariants of the larger classes are sealed, as `Common.dfy` explains: a proof looks inside only where it
says so. This is for the verifier's sake and has no meaning of its own.

Some things turn out not to hold as one might expect, and are stated exactly:

* A handshake that has waited for its connection counts as successful whatever becomes of its final
  reply (`Socks5Laws.WaitingSucceeds`, with examples in `Socks5Laws.SuccessUnsent`). If the connection was
  made at once, the final reply was accepted (`Socks5Laws.RunInOrder`).
* A server whose address is of another family than IPv4 or IPv6 sends a reply that its client cannot
  tell from the data that follows (`Wire.ConnectAgreement`), and the session pool reads the second BIND
  response rightly only for IPv6 peers (`Wire.SecondAgreement`).
* A call that finds an HTTP/2 connection ready just before it is stopped may be left over when the
  I/O thread is gone and everything pending was cancelled. It is then not finished, unless the
  connection is stopped or made once more (`PendingCalls.Orphaned`, `PendingCalls.HttpConnection.Run`). Just
  the calls inserted after the last cancellation began are left over
  (`PendingCalls.HttpConnection.Orphans`), and none is if none was inserted
  (`PendingCalls.HttpConnection.Stop`). A call pending when the connection is
  dropped may fail for good if the connection is reset meanwhile (`PendingCalls.NotRetried`); otherwise it
  is to be retried (`PendingCalls.HttpConnection.Run`).
* A task scheduled after the executor's worker has left is accepted and never run
  (`Executors.Stranded`), and so is one for the last moment of the clock while the worker waits for
  anything at all to do (`Executors.Overlooked`). In all other states every accepted task gets run or is
  cancelled (`Executors.Executor.Settle`).
* A contribution limit of 0 lets one partition through, and a negative one all
  (`Contribution.ShareFair`). A metric both logged and accumulated in one request may contribute twice
  its limit (`Contribution.TwiceTheLimit`). It is clear from the calls of the request whether that
  happens (`Contribution.Request`, `Contribution.LimitExact`).
* A response of more than 2^30 bytes, or with a larger minimum, cannot be encoded (`Framing.Respond`), nor
  can groups be concatenated to more than an int can count (`Framing.Build`).
* The comment above `BucketMean` says that a bucket includes its lower boundary; the code puts a value
  equal to a boundary into the bucket below it. The model follows the code.

## Model

| member | source | states |
|---|---|---|
| Buffers.Buffer.constructor | src/aws/proxy/buffer.h:133-146 | a new buffer is an empty queue with nothing outstanding |
| Buffers.Buffer.AppendNewBlock | src/aws/proxy/buffer.h:305-320 | the list grows by one block at the back, from the freelist or new, all free; the queue, its place and the reserved memory stay, and no block is lost |
| Buffers.Buffer.Current | src/aws/proxy/buffer.h:349-359 | stepping stands at the memory that directly follows what was named before, adding a block only past the last one |
| Buffers.Buffer.StepperStart | src/aws/proxy/buffer.h:324-331 | stepping starts exactly where the queue ends, in the block that has the next free byte |
| Buffers.Buffer.TakeSpace | src/aws/proxy/buffer.h:166-202 | the common loop of both reservations: spans without gap or overlap from the end of the queue on, of exactly the size asked for or less than a block more |
| Buffers.Buffer.Reserve | src/aws/proxy/buffer.h:166-180 | the spans are exactly the next `size` bytes of memory behind the queue, in order; the queue is unchanged |
| Buffers.Buffer.ReserveAtLeast | src/aws/proxy/buffer.h:188-202 | as Reserve, for at least `size` bytes and less than a block more |
| Buffers.Buffer.CommitAt | src/aws/proxy/buffer.h:98-104 | one block takes what fits of the commit, and the rest is left only if it is full |
| Buffers.Buffer.CommitBlocks | src/aws/proxy/buffer.h:214-223 | the end of the data moves by exactly `size`, over any number of blocks |
| Buffers.Buffer.Commit | src/aws/proxy/buffer.h:214-226 | the queue grows by exactly the first `size` bytes of what the reserved memory holds, wherever Peek and Drain have been in between; its front does not move, so an outstanding view stays a prefix |
| Buffers.Buffer.Peek | src/aws/proxy/buffer.h:230-239 | the spans are exactly the memory of the whole queue, in order, and a reservation stays as it is |
| Buffers.Buffer.DrainFirst | src/aws/proxy/buffer.h:107-114 | one block gives up what it has of the drain |
| Buffers.Buffer.Prune | src/aws/proxy/buffer.h:249-254 | a used-up block leaves the list for the front of the freelist, and nothing else changes place |
| Buffers.Buffer.DrainBlocks | src/aws/proxy/buffer.h:243-255 | the start of the data moves by exactly `size`, pruning every block that is used up |
| Buffers.Buffer.Drain | src/aws/proxy/buffer.h:243-269 | the queue loses exactly its first `size` bytes; an outstanding reservation keeps its place and its contents; without one an emptied first block is all free again |
| Buffers.Buffer.ResetHead | src/aws/proxy/buffer.h:264-268 | resetting the offset of an empty buffer keeps the list well formed |
| Buffers.Buffer.Store | src/aws/proxy/buffer.h:166-180 | a write into a reserved span changes exactly those bytes on the line and leaves the queue alone |
| Buffers.Buffer.Scatter | src/aws/proxy/buffer.h:273-280 | bytes written through the spans of a reservation are what it then holds, and the queue is unchanged |
| Buffers.Buffer.Gather | src/aws/proxy/buffer.h:285-299 | bytes read through the spans of a view are the front of the queue, even if more was committed since |
| Buffers.Buffer.CopyIn | src/aws/proxy/buffer.h:273-282 | appends exactly the given bytes |
| Buffers.Buffer.CopyOut | src/aws/proxy/buffer.h:285-302 | takes exactly the first `size` bytes off the queue, or all there are, and returns them |
| Buffers.Buffer.Destroy | src/aws/proxy/buffer.h:148-148 | all blocks of a buffer go to the freelist, which stays well formed |
| Buffers.Buffer.SpaceSize | src/aws/proxy/buffer.h:151-158 | the computed space is what lies between the end of the queue and the end of the last block |
| Buffers.Buffer.BlockSums | src/aws/proxy/buffer.h:149-160 | the queue is the blocks' data end to end, and data_size and space_size are the sums over the blocks |
| Buffers.Buffer.Located | src/aws/proxy/buffer.h:166-239 | a block in which a span at or behind the front of the queue lies is still in the list, at its number, and holds what the line says |
| Buffers.Buffer.CoversKept | src/aws/proxy/buffer.h:243-269 | spans reserved before a drain still name the same memory after it, though blocks have gone to the freelist |
| Buffers.Buffer.StillCovers | src/aws/proxy/buffer.h:305-320 | spans keep naming the same memory as long as their blocks keep their numbers, as when blocks are added |
| Blocks.NoRepeat | src/aws/proxy/buffer.h:75-78 | a chain that ends visits no block twice |
| Freelists.Freelist.New | src/aws/proxy/freelist.h:42-56 | gives the block last put back, re-initialised, and allocates only if there is none |
| Freelists.Freelist.Delete | src/aws/proxy/freelist.h:59-67 | the block becomes the front of the list |
| Freelists.Freelist.DeleteChain | src/aws/proxy/freelist.h:70-86 | a whole chain goes in front of the list in its own order, and the count grows by its length |
| Freelists.Freelist.Size | src/aws/proxy/freelist.h:88-88 | the count is the length of the list |
| Pools.Pool.Create | src/aws/proxy/buffer.h:133-146 | another buffer on the same freelist, empty, with all invariants kept |
| Pools.Pool.Act | src/aws/proxy/buffer.h:133-302 | an operation on one of many buffers that share a freelist has its effect there, on queue, reserved memory and what is outstanding; all others keep queue, reservation, view and the place of every block; a block that is added was in the freelist or is newly allocated |
| Pools.Pool.Run | src/aws/proxy/buffer.h:133-302 | over any operations on any buffers, reads and writes through spans included, with buffers created and destroyed in between, each operation that is allowed has its effect on its own buffer, gives back the right bytes and has no effect on any other buffer |
| Clients.Client.Perform | src/aws/proxy/buffer.h:166-302 | every operation that the buffer allows does to queue and memory what it should: what is written through the spans of a reservation is what a commit adds, even if the front was looked at or drained in between, and what is read through the spans of a view is the front of the queue, even if more was reserved or committed in between |
| Pools.Pool.Destroy | src/aws/proxy/freelist.h:70-86 | a destroyed buffer's blocks are all in the freelist, and all other buffers keep queue, reservation, view and blocks |
| Pools.Pool.DestroyAll | src/aws/proxy/buffer.h:148-148 | when all buffers are destroyed, the freelist holds every block ever allocated, counted once |
| Pools.Pool.OneList | src/aws/proxy/freelist.h:42-88 | in every reachable state each block ever allocated is in the freelist or in the list of exactly one buffer |
| Socks5.FillAddrPort | src/aws/proxy/protocol.cc:49-81 | 7, 19 or no bytes by address family |
| Socks5Laws.ParsedBack | src/aws/proxy/protocol.cc:49-81 | what is filled in for an IPv4 or IPv6 endpoint tells just that endpoint to whoever parses it, whatever follows |
| Socks5.Proceed | src/aws/proxy/socks5_state.cc:66-295 | short of data nothing changes; otherwise exactly the required bytes are taken; a rank falls on every true return; failure is absorbing |
| Socks5.ConnectionSucceed | src/aws/proxy/socks5_state.cc:297-319 | succeeds exactly when waiting, and then logs the final reply, whatever the callback answers to it |
| Socks5.ProceedRegular | src/aws/proxy/socks5_state.cc:66-295 | a step that does not go on cannot go on without more data |
| Socks5.ProceedMore | src/aws/proxy/socks5_state.cc:66-295 | a step with enough data does the same whatever follows |
| Driver.Drive | src/aws/proxy/proxy_bridge.cc:71-73 | the handler's loop ends, having taken no more than there is, where only more data could help |
| Driver.DriveMore | src/aws/proxy/proxy_bridge.cc:64-83 | running over some data and then over the rest is running over all of it |
| Driver.FeedDrive | src/aws/proxy/proxy_bridge.cc:64-83 | reading in chunks and stopping when not short of data comes to the same as one run over the whole stream |
| Driver.FragmentationIndependent | src/aws/proxy/proxy_bridge.cc:64-83 | any two ways to split the client's bytes give the same state, the same calls and the same bytes left over |
| Socks5Laws.RunLegal | src/aws/proxy/socks5_state.cc:66-319 | in every run the calls are a prefix of greeting reply, connection, final reply, or of greeting reply, binding, its reply, final reply, and the bytes of each reply are those of RFC 1928 for its outcome; so connecting and binding happen at most once |
| Socks5Laws.RepliesSpoken | src/aws/proxy/socks5_state.cc:32-62 | byte by byte, what every reply says: version, code, reserved byte, and the address with its family; the reply to BIND tells the IPv4 address 0.0.0.0 and the port |
| Socks5Laws.RunInOrder | src/aws/proxy/socks5_state.cc:66-319 | in every run each state stands at its point of that order, and the callbacks have answered what it takes to get there; for a success this includes the final reply if the connection was made at once, but not if it was waited for |
| Socks5Laws.WaitingSucceeds | src/aws/proxy/socks5_state.cc:297-319 | for every greeting and request, if the connection is waited for and then reported, the handshake succeeds whatever the final reply is answered |
| Socks5Laws.SuccessUnsent | src/aws/proxy/socks5_state.cc:297-319 | for CONNECT and for BIND, a handshake that succeeds though its final reply failed |
| Socks5Laws.RunFailed | src/aws/proxy/socks5_state.cc:287-289 | whatever happens to a failed handshake, it stays failed and makes no calls |
| Socks5Laws.GreetingAccepted | src/aws/proxy/socks5_state.cc:75-123 | every greeting of RFC 1928 that offers "no authentication" is taken exactly and leads to the request |
| Socks5Laws.GreetingNeeded | src/aws/proxy/socks5_state.cc:75-123 | only such a greeting does |
| Socks5Laws.RequestAccepted | src/aws/proxy/socks5_state.cc:124-262 | every CONNECT or BIND request for an IPv4 or IPv6 address is taken exactly and makes the call it asks for, and the handshake then stands where the callbacks' answers lead |
| Socks5Laws.RequestNeeded | src/aws/proxy/socks5_state.cc:124-180 | only such a request makes a call |
| Socks5Laws.CallIffAsked | src/aws/proxy/socks5_state.cc:66-295 | a connection or binding is made if and only if the client's bytes start with a greeting and a request for just that; all else is left in the buffer |
| Socks5States.Socks5State.Proceed | src/aws/proxy/socks5_state.cc:66-295 | the object over a real buffer makes exactly the step of the pure function and leaves exactly the bytes it leaves |
| Socks5States.Socks5State.ConnectionSucceed | src/aws/proxy/socks5_state.cc:297-319 | likewise for the end of the handshake |
| Socks5States.Socks5State.InsufficientBuffer | src/aws/proxy/socks5_state.h:113-115 | true exactly if the queue is shorter than required |
| Wire.Socket.RecvAll | src/aws/proxy/preload.cc:247-266 | through partial receives and interruptions, exactly `len` bytes are taken if the peer sends that many |
| Wire.ClientConnect | src/aws/proxy/preload.cc:294-411 | sends a greeting and a CONNECT request for the address, of which only what send accepted is on its way; if that is all, takes and returns what Answer says of the peer's bytes |
| Wire.AnswerRefused | src/aws/proxy/preload.cc:357-373 | an error reply, with any code and whatever follows, makes the client return that code negated after 7 bytes |
| Wire.AnswerNamed | src/aws/proxy/preload.cc:374-411 | a reply that tells a name is taken exactly, with its length |
| Wire.AnswerCut | src/aws/proxy/preload.cc:347-411 | a reply cut short makes the client fail, having taken all there was |
| Wire.ConnectAgreement | src/aws/proxy/preload.cc:294-411 | for every IP target the client's bytes make the server try to connect to it with nothing left over; if the connection is made, at once or later, the client succeeds and takes exactly the server's replies if and only if the server could tell an IP address, and returns -1 after 7 bytes if it could tell none; if not, the client fails |
| Wire.AnswerIffTold | src/aws/proxy/socks5_state.cc:32-62 | the reply is read exactly and taken for success if and only if it tells an IP address; without an address the client returns -1 |
| Wire.BindAgreement | src/aws/proxy/client_session_pool.cc:67-114 | the pool's 13 bytes make the server bind just that port with nothing left over, and from its 12 bytes of replies the pool reads the port that was bound |
| Wire.PoolRefuses | src/aws/proxy/client_session_pool.cc:83-114 | the pool takes no response with an error code, whatever follows, and none that is too short |
| Wire.SecondAgreement | src/aws/proxy/client_session_pool.cc:244-263 | the second response is 22 bytes and gives the pool the right peer if and only if the peer has an IPv6 address; an error response gives it none, whatever follows |
| Pipes.Pipe.Forward | src/aws/proxy/proxy_bridge.cc:90-131 | reads and writes are started exactly when the flags and the buffer allow, a read with at least 64 KiB of room and a write of all that is buffered, never over an outstanding one; nothing else changes |
| Pipes.Pipe.Ended | src/aws/proxy/proxy_bridge.cc:90-131 | with nothing outstanding, the sink takes no more, or the source has ended and everything is delivered |
| Pipes.Pipe.ReadHandler | src/aws/proxy/proxy_bridge.cc:133-151 | exactly the bytes read are appended; after a failed read the source is not read any more, and the sink is shut down for sending if and only if the source has ended and nothing is buffered |
| Pipes.Pipe.WriteHandler | src/aws/proxy/proxy_bridge.cc:192-208 | exactly the bytes written leave the front of the buffer; a failed write ends writing and shuts the source down for receiving, and the end of the data shuts the sink down for sending; nothing else changes |
| Bridges.ProxyBridge.DriveHandshake | src/aws/proxy/proxy_bridge.cc:71-73 | the loop over the real buffer ends where Drive ends, takes what Drive takes and leaves the rest |
| Bridges.ProxyBridge.PerformSocks5Handshake | src/aws/proxy/proxy_bridge.cc:54-62 | the first read is outstanding, and all invariants hold |
| Bridges.ProxyBridge.Socks5HandshakeHandler | src/aws/proxy/proxy_bridge.cc:64-83 | what arrived goes through the handshake, whose state and leftover data are those of Drive, and another read is asked for exactly if it is short of data; after a failed read the handshake stays where it is |
| Bridges.ProxyBridge.ForwardTraffic | src/aws/proxy/proxy_bridge.cc:90-131 | everything that can be under way in either direction is under way, nothing else changes, and no precondition of the buffers is violated |
| Bridges.ProxyBridge.ConnectHandler | src/aws/proxy/proxy_bridge.cc:210-218 | if the connection was made the final reply is sent and forwarding starts, never while a read of the handshake is outstanding; if it failed nothing changes |
| Bridges.ProxyBridge.ClientReadHandler | src/aws/proxy/proxy_bridge.cc:133-151 | the client's stream grows by the bytes read, which are now in the buffer towards the destination; the client is read on exactly if the read did not fail |
| Bridges.ProxyBridge.DestWriteHandler | src/aws/proxy/proxy_bridge.cc:192-208 | the destination has got exactly the next `size` bytes of the client's stream; after a failed write nothing more is written to it and the client is shut down for receiving |
| Bridges.ProxyBridge.DestReadHandler | src/aws/proxy/proxy_bridge.cc:172-190 | likewise from the destination |
| Bridges.ProxyBridge.ClientWriteHandler | src/aws/proxy/proxy_bridge.cc:153-170 | likewise to the client |
| Bridges.ProxyBridge.Handle | src/aws/proxy/proxy_bridge.cc:64-218 | every event that can happen keeps all invariants and has exactly its effect, by its bytes and by whether it failed, on the streams, the handshake and both directions: what is buffered, all flags, what is shut down and what is under way |
| Bridges.ProxyBridge.Run | src/aws/proxy/proxy_bridge.cc:64-218 | over any events in any order, each one that can happen does, with just that effect, and the invariants hold |
| Bridges.Outcomes | src/aws/proxy/proxy_bridge.cc:64-218 | over any events, traffic is forwarded exactly if a connection was made; the handshake was given up exactly if a read of it failed; each side is read on exactly if no read of it failed, and was shut down for receiving exactly if a write to the other failed; writing to a side ends exactly with a failed write, or with its being shut down for sending |
| Bridges.Session | src/aws/proxy/proxy_bridge.cc:54-62 | from the start of a session, with all the laws of SessionLaws at its end, the streams made of just what the events brought, and the state showing how they ended |
| Bridges.SessionLaws | src/aws/proxy/proxy_bridge.cc:64-208 | at all times what was read is what the handshake took, what was delivered and what is buffered, in this order; the handshake took what Drive takes of the whole stream; buffers never exceed the stated bound; a side is shut down for sending exactly if the other has ended and all is delivered; no direction gets stuck |
| Executors.Executor.ScheduleFor | src/core/async_executor/single_thread_priority_async_executor.cc:138-153 | accepted exactly if the queue is below its cap, and then queued; the worker is alerted exactly if the task is earlier than what it waits for |
| Executors.Executor.NoLostWakeUp | src/core/async_executor/single_thread_priority_async_executor.cc:69-153 | whenever a queued task is due, a waiting worker goes on, if and only if it is not stuck; it is stuck only over tasks for the last moment of the clock, waiting without a deadline; a worker told to stop always goes on |
| Executors.Executor.Wake | src/core/async_executor/single_thread_priority_async_executor.cc:76-84 | the worker that woke up takes the alert back |
| Executors.Executor.Discard | src/core/async_executor/single_thread_priority_async_executor.cc:86-90 | only a cancelled task on top is dropped, and it is accounted for |
| Executors.Executor.Choose | src/core/async_executor/single_thread_priority_async_executor.cc:92-112 | the task taken is due and no queued task is earlier; the worker leaves exactly if told to stop with nothing queued; otherwise it waits for the earliest task |
| Executors.Executor.Execute | src/core/async_executor/async_task.h:57-62 | a task runs exactly if it was not cancelled by then, and every task is run or skipped once |
| Executors.Executor.Cancel | src/core/async_executor/async_task.h:65-73 | reports success exactly the first time |
| Executors.Executor.Take | src/core/async_executor/single_thread_priority_async_executor.cc:69-153 | every single step has exactly its effect on the whole state, or none if it cannot be taken, and keeps: each accepted task in exactly one of queue, worker, run and skipped, and only cancelled ones skipped; no task run early; no wake-up lost; a task cancelled in time never runs; a worker that left stays away, and a stuck one stays stuck unless a task is scheduled or it is told to stop |
| Executors.Executor.Run | src/core/async_executor/single_thread_priority_async_executor.cc:69-153 | over every run all steps are taken, with the same kept; the cancellations that succeed are those the steps say, and none succeeds twice for a task |
| Executors.RunKeeps | src/core/async_executor/single_thread_priority_async_executor.cc:69-153 | in every run a task cancelled before it was executed is never executed; after the worker has left none is; nor is any by a stuck worker until somebody schedules a task or shuts down |
| Executors.ConfirmedOnce | src/core/async_executor/async_task.h:65-73 | in every run a task's cancellation succeeds at most once |
| Executors.Executor.Settle | src/core/async_executor/single_thread_priority_async_executor.cc:69-116 | from every state in which the worker has not left and is not stuck, a run of steps of its own and of time comes to an end with nothing queued and every accepted task run or cancelled |
| Executors.Stranded | src/core/async_executor/single_thread_priority_async_executor.cc:92-153 | a task accepted after the worker has left is not run, whatever happens then |
| Executors.Overlooked | src/core/async_executor/single_thread_priority_async_executor.cc:69-104 | a task for the last moment of the clock, scheduled while the worker waits without a deadline, is not run by any further steps of the worker |
| PendingCalls.HttpConnection.Admit | src/core/http2_client/http_connection.cc:245-254 | lets a call in exactly if the connection is ready |
| PendingCalls.HttpConnection.Insert | src/core/http2_client/http_connection.cc:258-263 | the call becomes pending whatever happened since it was let in |
| PendingCalls.HttpConnection.StartSweep | src/core/http2_client/http_connection.cc:196-203 | a cancellation sets out to finish exactly what is pending at that moment |
| PendingCalls.HttpConnection.Halt | src/core/http2_client/http_connection.cc:149-160 | the I/O thread is joined once nothing is left to do there |
| PendingCalls.HttpConnection.Erase | src/core/http2_client/http_connection.cc:205-218 | succeeds exactly if the call is pending, and then makes this finisher the only one who owes its end |
| PendingCalls.HttpConnection.Finish | src/core/http2_client/http_connection.cc:220-231 | only a call whose erasure succeeded is finished; by a closed stream or a failed send with the result of its own, by a sweep with a retry exactly if the connection is dropped at that time, and else as failed |
| PendingCalls.HttpConnection.Reset | src/core/http2_client/http_connection.cc:235-239 | the connection is neither ready nor dropped, and all calls stay as they are |
| PendingCalls.HttpConnection.Take | src/core/http2_client/http_connection.cc:182-392 | every step of send failure, stream close, connection error, stop, start and reset has exactly its effect on the whole state, or none if it cannot be taken, and keeps each call pending, or owed by exactly one finisher, or finished once |
| PendingCalls.HttpConnection.Run | src/core/http2_client/http_connection.cc:137-392 | over every run all steps are taken; each call is finished at most once, by someone who had it to finish and with what they finish calls with; without a cancellation every call is finished with its own result; while the connection stays dropped calls are cancelled only with a retry; with the I/O thread joined and everybody through, nothing is finished and nothing pending is lost unless the connection is stopped or made again |
| PendingCalls.HttpConnection.Orphans | src/core/http2_client/http_connection.cc:149-233 | once the I/O thread is joined and the latest cancellation is through, a call is pending, and not finished, if and only if it was inserted after the keys were taken |
| PendingCalls.HttpConnection.Stop | src/core/http2_client/http_connection.cc:137-164 | from every state, if no call is inserted meanwhile, in the end every call is finished |
| PendingCalls.Orphaned | src/core/http2_client/http_connection.cc:137-263 | a call let in before a Stop and inserted after its cancellation is not finished, whatever happens, unless the connection is stopped or made again |
| PendingCalls.NotRetried | src/core/http2_client/http_connection.cc:196-239 | a call pending when the connection is dropped fails for good if the connection is reset during the cancellation |
| Histograms.LowerBound | src/metric/dp.h:258-260 | the index found is the bucket: all boundaries before are below the value and none from there on |
| Histograms.ClampedInRange | src/metric/dp.h:256-284 | a value's bucket is swept by the output, whatever the value, if and only if the lower bound's bucket is not above the upper bound's, as when the bounds are in order |
| Histograms.BucketMean | src/metric/dp.h:197-209 | the value logged for a bucket is halfway between its boundaries, half of the boundary for the first bucket, and one above the boundary for the last |
| Histograms.MeanInBucket | src/metric/dp.h:201-209 | the value logged for a bucket falls into it if and only if the bucket is not empty and, for the first one, its boundary is not negative |
| Histograms.Histogram.Aggregate | src/metric/dp.h:249-263 | one more entry in the bucket of the clamped value |
| Histograms.Histogram.OutputNoised | src/metric/dp.h:269-297 | without noise, as many values are logged as were aggregated since the last output, bucket by bucket, and counting starts afresh |
| Contribution.BinarySearch | src/metric/context.h:584-584 | finds a partition in a sorted list exactly if it is there |
| Contribution.BoundPartitions | src/metric/context.h:570-610 | keeps exactly the first public entries up to the limit, by the definition of Share |
| Contribution.ShareFair | src/metric/context.h:566-610 | a share has only given entries, no partition twice, only public ones where there are any; and it is within the limit if and only if the limit is at least 1, or is 0 and nothing public comes first |
| Contribution.LimitZero | src/metric/context.h:583-594 | with a limit of 0 one public partition gets through |
| Contribution.Context.AssertLoggable | src/metric/context.h:378-388 | succeeds exactly once for each metric |
| Contribution.Context.LogMetricInternal | src/metric/context.h:460-479 | a value goes to the router as it is if raw values may be logged, and to the aggregator if the metric is privacy-impacting and that is not all; the status is Ok exactly if the metric is to be logged and the router accepts what it is given |
| Contribution.Context.LogMetric | src/metric/context.h:412-437 | a second call, an unknown metric and one that is not to be logged are refused, and with a router that accepts everything nothing else is; a successful call gives each way exactly the share, or the one value of a metric without partitions, and so does the first one if the router accepts everything |
| Contribution.Context.LogMetricDeferred | src/metric/context.h:485-555 | succeeds exactly for the first call of a known metric that is to be logged; then the call is remembered with its values, and which way they go is settled now |
| Contribution.Context.RunCallback | src/metric/context.h:531-553 | raw values go to the router all and as they are, the aggregator gets the share of them; up to the first error, and all of it on success or if the router accepts everything |
| Contribution.Context.RunCallbacks | src/metric/context.h:88-92 | afterwards no call is waiting, and if the router accepts everything each metric has had logged, either way, exactly what its log call entitles it to |
| Contribution.AccumulatedSum | src/metric/context.h:323-325 | unless means are asked for, each partition holds the sum of its values |
| Contribution.AccumulatedMean | src/metric/context.h:317-322 | if means are asked for, each partition holds the mean of its values |
| Contribution.Context.AccumulateMetric | src/metric/context.h:305-343 | accepted exactly for a known metric, logged or not, and added to what is accumulated |
| Contribution.Context.RunAccumulators | src/metric/context.h:93-96 | either way the router gets, after what it had, the share of each metric's accumulated values, up to the first error |
| Contribution.Context.Contributed | src/metric/context.h:378-610 | in every reachable state a metric has contributed a fair share of its one log call, within its limit if that is at least 1 |
| Contribution.Request | src/metric/context.h:88-610 | over a whole request, with immediate, deferred and accumulated values, just the calls that should be are accepted; by either way, what is logged of a metric is the beginning of what its first log call is entitled to and then the beginning of the share of what was accumulated, and all of both if the router accepts everything; the aggregator gets fair shares, at most the limit, or twice that if the metric was both logged and accumulated; and if the router accepts everything it stays within the limit if and only if one has nothing to contribute or what both have fits |
| Contribution.LimitExact | src/metric/context.h:305-343 | the two shares are together within a limit of at least 1 if and only if one has no eligible entries or both together have at most as many as the limit, as counted from the calls of the request |
| Contribution.TwiceTheLimit | src/metric/context.h:305-343 | for every partition and all values, a metric with a limit of 1 that contributes the same partition twice |
| Framing.EncodedDataSize | src/communication/framing_utils.cc:32-38 | the size is the least power of two that holds the payload and five bytes and is at least the minimum |
| Framing.EncodeResponsePayload | src/communication/encoding_utils.cc:31-66 | the result starts with the compression type, the length in network byte order and the data, and has zeros behind it, exactly if that fits; unless the size overflows an int it succeeds exactly then; the array has a negative size exactly if both sizes are negative as ints |
| Framing.DecodeRequestPayload | src/communication/encoding_utils.cc:68-99 | succeeds exactly if the payload is as long as its four length bytes say in network order, and then gives version and type as its first byte has them and the data that follow |
| Framing.FrameUnique | src/communication/encoding_utils.cc:68-99 | no payload starts with two different frames, so decoding gives back version, type and data whatever the padding |
| Framing.Respond | src/communication/encoding_utils.cc:31-99 | encoding to the computed size and decoding again gives back the data, if and only if it fits that size as an int; for a minimum that is a power of two, if and only if preamble, data and minimum do not exceed 2^30 bytes, and otherwise nothing is decoded |
| Framing.Build | src/communication/uncompressed.cc:23-37 | gives every group with its length in front, most significant byte first, one after the other, if and only if the total size fits an int; nothing can be allocated if it is negative as an int |
| Framing.ExtractOneCompressionGroup | src/communication/uncompressed.cc:39-52 | takes one group off the front, as long as its four bytes say in network order, exactly if there is one |
| Framing.ReadAll | src/communication/uncompressed.cc:39-52 | reading until done gives back exactly the groups the blob was built of, and no other blob is accepted as if it were built of them |
| ProtoTime.DurationEncoded | src/util/protoutil.cc:71-79 | encoding succeeds exactly if the duration truncated toward zero to nanoseconds is in range, and says that value without opposite signs |
| ProtoTime.DurationTruncated | src/util/protoutil.cc:96-101 | decoding what was encoded truncates toward zero to nanoseconds |
| ProtoTime.DurationBack | src/util/protoutil.cc:96-101 | encoding what was decoded from a valid message gives that message |
| ProtoTime.TimestampEncoded | src/util/protoutil.cc:88-94 | encoding succeeds exactly if the time rounded toward the past to nanoseconds is in range, and says that value with nanoseconds from 0 |
| ProtoTime.TimestampRounded | src/util/protoutil.cc:103-109 | decoding what was encoded rounds toward the past to nanoseconds |
| ProtoTime.TimestampBack | src/util/protoutil.cc:103-109 | encoding what was decoded from a valid message gives that message |

## Left out

- Buffers.Buffer.Peek: does not give the capacity hint of NumBuffersToReserve, which does not affect results.
- Blocks.NoRepeat: a block's memory is a sequence field, not an array in place behind the header; failure and alignment of allocation are not modelled.
- Freelists.Freelist.New: one atomic step; the compare-exchange loops and memory orders inside the freelist are not modelled, nor is the freelist's own destructor.
- Socks5States.Socks5State.Proceed: the response callback is set; what happens without it is in the pure step function, and only while the greeting is handled.
- Pipes.Pipe.Forward: one direction at a time; the program starts the four operations in another order, which makes no difference because they do not affect each other's conditions.
- Bridges.ProxyBridge.ConnectHandler: also stands for AcceptInboundConnection; a failed connection may be reported again, which changes nothing; sockets, strands, cancellation signals and the acceptor pool appear only as events with arbitrary byte counts and errors.
- Wire.ClientConnect: a recv that is interrupted for ever is not modelled; allocation of a larger reply buffer does not fail.
- Wire.BindAgreement: only the bytes exchanged with the proxy; the pool's sockets, its re-initiation and its messages to the application are not modelled.
- Executors.Executor.Choose: the priority queue is any queue whose top is a task of least timestamp; the worker reads the clock once between choosing and waiting; a wait of more than 2^63 nanoseconds is taken to last that long; CPU affinity and thread start are not modelled.
- Executors.Executor.Execute: checking for cancellation and running the task are one step; a cancellation that comes between them succeeds although the task runs, as one that comes later does.
- PendingCalls.HttpConnection.Halt: that the I/O thread may also die of an exception, which drops the connection, is not modelled.
- PendingCalls.HttpConnection.Erase: the lookup before the erasure has no effect of its own and is not a step; what a stream makes of its status code is an arbitrary result, and TLS, sessions and headers are not modelled.
- Histograms.Histogram.OutputNoised: no noise and no errors; histograms of integers, which truncate the logged value, are not modelled.
- Contribution.Context.AccumulateMetric: values are real numbers, so rounding and the conversion of the sum back to the metric's own type are not modelled.
- Contribution.Context.LogMetric: attributes and telemetry configuration are not modelled, nor are contexts for safe metrics only, in which a metric can be logged more than once.
- Contribution.Request: which prefix is logged after an error, and the limit then exactly, depend on the router's answers and are stated for a single log call or deferred call only.
- Contribution.BoundPartitions: the list of public partitions is sorted, as its declaration demands.
- Framing.Build: the writer and reader of the QUICHE library are modelled by what they are documented to do; failure to allocate a size that is not negative is not modelled.
- ProtoTime.DurationEncoded: the range of absl::Duration is unbounded; infinite durations are out of range.
- Compression, encryption, base64 and hashing are thin wrappers over libraries.
- The libcurl request manager rests on libraries that are not part of the repository.
- Load balancing of the multi-threaded executor, configuration, credentials, logging, error tables and key-value clients would only add easy members.
