# Verified core of the Lotus dashboard

This project models the parts of the dashboard that carry real algorithms and protocols, and
proves what they promise. Run `dafny verify dfyconfig.toml` (Dafny 4.11).

## What is modelled

**RLE+ bitset codec** (`Words`, `BitVectors`, `Varint`, `RleFormat`, `RleRuns`, `RlePlus`,
`RleTheorems`, `RleCanonical`). The packed bit vector is a class whose methods mutate `Buf` and `Len`; it refines a
plain sequence of bits. `RleFormat` states the block grammar as a printer and a parser over a bit
string followed by endless zeros, and proves that the parser finds the one grammatical reading.
`RlePlus` holds the methods `Encode`, `Decode` and their loops; `RleRuns` holds `RunLengths`.
`RleTheorems` relates them: the round trip, canonicity, size, and what `Decode` returns on any bytes.
`RleCanonical` says which of the many encodings of a set `Encode` chooses, and fixes the format by the
encodings the repository's tests give.
Bitwise operators are written out on integers, and all 64-bit wrap-around is explicit.

**JSON-RPC over one WebSocket** (`RpcMessages`, `RpcClient`, `OutChanMux`, `Dispatch`, `OutStream`,
`RpcSystem`, `RpcTasks`, `RpcStreams`, `RpcTheorems`, `RpcReturns`, `RpcHandlers`, `RpcWedge`,
`RpcProgress`, `RpcShutdown`). `RpcClient` is the client: callers drawing ids, the bounded request queue, the event loop
with its table of requests in flight, shutdown, and reply channels of capacity one. Its theorems hold
whatever frames arrive; `EventLoop.HandleWsConn` is the loop itself. `Dispatch` is the path of one call
from lookup to response: `Handle` runs the body and then its deferred calls against a transport that
logs every write and every `done`. `RpcSystem` composes client and server: FIFO wires, handlers that
take the steps of `handle` one by one and interleave freely, the server's write lock and the goroutine
that multiplexes output channels. What a method may return on which arguments is the relation
`Service.behaves`, so methods need not be deterministic. A run is any sequence of events; an event that
cannot happen in a state has no successor, so a statement about all runs is a statement about all
interleavings. `RpcTasks` follows one handler from dispatch to return, `RpcStreams` the values of one
output channel to the wire, `RpcTheorems` holds the end-to-end results, `RpcReturns` the client's end of
a call and `RpcHandlers` the client's end of a stream. `RpcWedge` is the one way the connection gets
stuck; `RpcProgress` and `RpcShutdown` say what can always happen otherwise, before and after the
client's loop has left. `OutChanMux` is the multiplexer's pair of slices and its loop, `OutStream` the client's
buffer with its handed-off mutex.

**HTTP connection tracker** (`ConnTracker`): the state hook, `Close` and `goServe`'s WaitGroup tokens.
A panic in the hook is recovered by the connection's goroutine and the run goes on, except for a
`StateNew` report, which the accepting goroutine makes.

**Sector infos across the FFI** (`ReplicaMap`): sorting and flattening in Go, splitting and building
the map in Rust.

Modelling assumptions: Go `int` has 64 bits, and a slice has fewer than 2^63 elements; socket writes
succeed and messages are text or binary; frames that carry a call have an id; reflection and
encoding/json appear as function parameters (`decode`, `marshal`, `invoke`, `encodes`, `valid`); the
order in which Go ranges over a map is a parameter. Ids drawn from `idCtr` and `chanCtr` are unbounded.

## Where the code differs from its description

- `Decode` drops a run of 2^63 or more ones, because the length becomes a negative `int`; the
  output is the denoted set exactly when every run of ones is representable
  (`RleTheorems.EmitExact`; the bytes of `RleTheorems.LongRunOfOnesIsDropped`).
- The close notice of an output channel reads its id after the swap-removal, so it names the channel
  in the last slot (`OutChanMux.CloseNoticeExact`, `OutChanMux.CloseNoticeCanMislead`).
- `Close` is documented to wait for outstanding requests. Once `goServe` has passed its first
  `wg.Add` the counter never returns to zero, so that wait, and `Start`, never return; a wait returns
  exactly when `goServe` has not started and nothing is tracked (`ConnTracker.WaitNeverReturns`, and
  the run of `ConnTracker.IdleServerCannotClose`).
- `into_commitments` reads past the end of a buffer whose length is no multiple of 32; the model reports
  that outcome as `OutOfBounds` exactly then (`ReplicaMap.ToPublicReplicaInfoMap`).
- A result that does not unmarshal at the client costs the caller the method's error too: the client
  method then returns a zero value and a nil error (`RpcReturns.ErrorArrivesExactly`, and the example
  of `RpcReturns.UnreadableValueLosesError`).
- `Encode` documents a run length that is too large; the three cases before that branch are exhaustive.
- Parameters of channel notifications travel without data: the client looks up channel 0 for a value and
  none for a close, while every id on the wire is positive, and reading a notification changes nothing
  (`RpcStreams.NotificationsGoUnheard`). Stream properties are stated on the frames as the server
  builds them.
- A handler holds the write lock while it registers its output channel, and the goroutine it registers
  with may be waiting for that lock with a notification to write. Two streaming calls suffice
  (`RpcWedge.TwoStreamsWedge`); from then on the server writes nothing (`RpcWedge.WedgedForever`). A
  held lock can be released if and only if its holder is not in that position or bound for it
  (`RpcWedge.ReleasedUnlessDoomed`). Tearing the connection down is not modelled.
- A request that is still queued when the client's loop leaves, or is queued after that, is never
  answered and its caller waits forever (`RpcClient.AnsweredAfterLeaving`,
  `RpcClient.QueuedCallIsStranded`).

## Model

| member | source | states |
|---|---|---|
| `BitVectors.BitVector.Push` | main/extern/rleplus/internal/bitvector.go:59-73 | earlier bits are untouched, the new bit is the pushed one or a stale padding bit showing through; a zero-padded vector grows by exactly the pushed bit and stays zero padded, for both packings |
| `BitVectors.BitVector.Get` | main/extern/rleplus/internal/bitvector.go:76-88 | the bit of the abstract sequence, with an error and 0 exactly when out of range |
| `BitVectors.BitVector.Extend` | main/extern/rleplus/internal/bitvector.go:97-110 | the vector grows by the selected digits of the byte in order, or-ed with whatever the padding held |
| `BitVectors.BitVector.Take` | main/extern/rleplus/internal/bitvector.go:119-135 | each slot of the result holds the bit at its position, zero past the end; under LSB0 the binary number read there |
| `BitVectors.BitIterator.Next` | main/extern/rleplus/internal/bitvector.go:143-154 | reads at the cursor and advances it, zeros indefinitely past the end |
| `BitVectors.BitVector.FromBytes` | main/extern/rleplus/internal/bitvector.go:48-54 | the vector is all bits of the bytes |
| `BitVectors.TakeRecoversExtend` | main/extern/rleplus/internal/bitvector.go:90-135 | taking at the position, count and order of an extension recovers exactly the selected digits, for all packings and orders |
| `BitVectors.PaddedIsPack` | main/extern/rleplus/internal/bitvector.go:59-73 | a zero-padded LSB0 buffer is determined by its bits |
| `BitVectors.UnpackPack` | main/extern/rleplus/internal/bitvector.go:48-88 | reading packed bits back gives them followed only by zeros |
| `BitVectors.BitOrder` | main/extern/rleplus/internal/bitvector.go:59-88 | the first bit of a byte is its low-order digit under LSB0 and its high-order one under MSB0 |
| `Varint.UvarintExact` | main/extern/rleplus/rleplus.go:121-140 | the varint reader returns the base-128 value exactly when it fits 64 bits in ten bytes, and 0 otherwise |
| `Varint.UvarintRoundTrip` | main/extern/rleplus/rleplus.go:62-70 | every 64-bit value takes at most ten bytes and reads back |
| `RleFormat.ParseExact` | main/extern/rleplus/rleplus.go:30-44 | the grammar is unambiguous: a block list is a reading of the bits if and only if the parser returns it |
| `RleFormat.ParseLength` | main/extern/rleplus/rleplus.go:108-151 | the number of blocks read is bounded by the unread bits plus one |
| `RleRuns.RunLengths` | main/extern/rleplus/rleplus.go:168-204 | sorts the caller's slice; the runs are all positive, denote exactly the distinct elements, sum to the maximum plus one and end in a run of ones |
| `RleRuns.RunListExact` | main/extern/rleplus/rleplus.go:168-204 | the same for every sorted list, with at most two runs per distinct element |
| `RleRuns.OnesAscending` | main/extern/rleplus/rleplus.go:156-168 | denoted positions ascend strictly within the covered span and are as many as the runs of ones are long |
| `RleRuns.RunListDedup` | main/extern/rleplus/rleplus.go:165-204 | repetitions do not change the runs |
| `RlePlus.PushRun` | main/extern/rleplus/rleplus.go:54-74 | appends the run's block, which by `RleCanonical.BlockShortest` is the shortest that stands for it |
| `RlePlus.Encode` | main/extern/rleplus/rleplus.go:45-77 | the bytes are the LSB0 packing of header, first bit and one shortest block per run; the length is the bit count; the caller's slice is left sorted |
| `RlePlus.TakeVarint` | main/extern/rleplus/rleplus.go:120-134 | collects the byte group of the grammar, failing exactly on an eleventh continuation byte |
| `RlePlus.TakeRun` | main/extern/rleplus/rleplus.go:109-142 | reads the grammatical block at the cursor, its run length and whether it ends the encoding |
| `RlePlus.Indices` | main/extern/rleplus/rleplus.go:144-148 | the wrapped indices of a run of ones, none when the length is negative |
| `RlePlus.DecodeRuns` | main/extern/rleplus/rleplus.go:103-151 | terminates on every input and emits the integers of the whole parse, or fails exactly on an overlong varint; it makes one pass per block of the parse |
| `RlePlus.Decode` | main/extern/rleplus/rleplus.go:88-154 | computes the specified result on every byte string, in at most 8·len(buf) − 2 passes of its outer loop |
| `RlePlus.AsIntAndBack` | main/extern/rleplus/rleplus.go:140-150 | the conversion to int and back to uint64 loses nothing, and the int is negative exactly from 2^63 on |
| `RleTheorems.RoundTrip` | main/extern/rleplus/rleplus.go:45-154 | for every list, in any order and with repetitions, decoding the encoded bytes succeeds with exactly the distinct elements in strictly ascending order |
| `RleTheorems.DecodesToDistinct` | main/extern/rleplus/rleplus.go:45-154 | the decoded list is the sorted input without its repetitions |
| `RleTheorems.EncodingCanonical` | main/extern/rleplus/rleplus.go:45-154 | two lists have equal bytes if and only if they have the same elements |
| `RleTheorems.ReencodeIsIdentity` | main/extern/rleplus/rleplus.go:45-154 | encoding what an encoding decodes to reproduces its bytes and bits |
| `RleTheorems.DecodeRefinesGrammar` | main/extern/rleplus/rleplus.go:79-154 | on every byte string, the empty one included, the result is fixed by the grammatical reading: wrong version, overlong varint, or integers that are the denoted set exactly when the runs of ones are representable, and then ascend |
| `RleTheorems.OverlongExact` | main/extern/rleplus/rleplus.go:120-134 | a varint is overlong exactly when it is eleven bytes that all announce another one |
| `RleTheorems.EmitExact` | main/extern/rleplus/rleplus.go:140-151 | the loop's 64-bit arithmetic yields the denoted positions if and only if every run of ones is below 2^63 and ends within 2^64 |
| `RleTheorems.LongRunOfOnesIsDropped` | main/extern/rleplus/rleplus.go:140-148 | concrete bytes whose reading denotes 2^63 integers and which decode to none |
| `RleTheorems.BoundedIsRepresentable` | main/extern/rleplus/rleplus.go:140-151 | runs of at most 2^64 in total with runs of ones below 2^63 are representable |
| `RlePlus.DecodePasses` | main/extern/rleplus/rleplus.go:108-151 | the blocks read from a non-empty buffer, one per pass of the outer loop, are at most 8·len(buf) − 2 |
| `RleTheorems.EncodedSize` | main/extern/rleplus/rleplus.go:45-77 | n distinct integers take between 3 and 3 + 164·n bits, in ⌈bits/8⌉ bytes |
| `RleCanonical.BlockShortest` | main/extern/rleplus/rleplus.go:54-74 | the block chosen for a run is the shortest that stands for it and the only one that short |
| `RleCanonical.EncodingShortest` | main/extern/rleplus/rleplus.go:45-77 | for every set and every way of writing its runs as blocks, the encoding takes no more bits, and as many only if it is the same |
| `RleCanonical.RunsUnique` | main/extern/rleplus/rleplus.go:168-204 | one alternating list of positive runs that ends in ones denotes a set, and the set tells the first bit |
| `RleCanonical.ReferenceEncoding` | main/extern/rleplus/rleplus_test.go:121-146 | the bits and bytes of the reference implementation's example, for any list of its numbers |
| `RleCanonical.WrongVersionExample` | main/extern/rleplus/rleplus_test.go:110-113 | the byte 0xff is refused for its version |
| `RleCanonical.OverlongExample` | main/extern/rleplus/rleplus_test.go:115-119 | a varint of eleven continuation bytes is refused |
| `RpcClient.EventLoop.OnRequest` | main/rpc/websocket.go:171-175 | the id was free, exactly this request enters the table, no reply channel is touched, and the loop invariant holds with the id among the taken ones |
| `RpcClient.EventLoop.OnResponse` | main/rpc/websocket.go:247-283 | a response that names a request in flight, unless that wants a stream and the result is neither a number nor null, removes exactly that request, leaves its one answer on its channel and, for a stream, registers the caller under the number; any other changes nothing |
| `RpcClient.EventLoop.OnFrame` | main/rpc/websocket.go:477-495 | whatever frame arrives, the loop invariant is kept; it panics exactly on a built-in without its parameters or a call without an id; only a response can change the table or a reply, and a usable one is its request's reply |
| `RpcClient.EventLoop.Shutdown` | main/rpc/websocket.go:110-126 | in any range order, each request in flight gets one error and no other reply channel is touched |
| `RpcClient.EventLoop.HandleWsConn` | main/rpc/websocket.go:105-190 | over any sequence of arrivals, handled up to the first that ends the loop, each request taken has exactly one reply at the return and no other has any; a usable response to a request in flight is that request's reply |
| `RpcClient.TakeIsFresh` | main/rpc/websocket.go:171-175 | taking a request never overwrites one in flight |
| `RpcClient.ResponseEffect` | main/rpc/websocket.go:247-283 | a response changes nothing, or answers exactly the request in flight it names |
| `RpcClient.ExactlyOneAnswer` | main/rpc/websocket.go:105-190 | in every run and whatever frames arrive, no reply channel is sent to twice, only taken requests are answered, and when `exiting` closes every taken request has its one reply |
| `RpcClient.InflightIsFaithful` | main/rpc/client.go:177-192 | `inflight[id]` is always the request call `id` made, with that call's reply channel |
| `RpcClient.AnsweredAfterLeaving` | main/rpc/client.go:177-226 | in every run, once the loop has left, a call without a reply can still get one if and only if it is in flight and the deferred loop has not reached it; a queued one cannot |
| `RpcClient.QueuedCallIsStranded` | main/rpc/client.go:177-226 | a run after which a queued caller waits forever |
| `RpcClient.NoCallVanishes` | main/rpc/client.go:177-192 | in every run each call is entering, in the queue of at most 100, taken, or given up; it is given up only after the loop has exited, never queued and without a reply; an entering caller can go on exactly when the queue has room or the loop has exited |
| `RpcShutdown.WhoCanReturn` | main/rpc/client.go:177-226 | in every run, a call can still return to its caller if and only if the loop serves or the call is not in the queue |
| `RpcClient.ReturnIsOwnReply` | main/rpc/client.go:425-434 | a caller returns with the only reply its channel ever carried, and an answer bears the caller's id |
| `OutChanMux.OutChans.OnRegistration` | main/rpc/websocket.go:343-350 | the slices stay aligned with the registrations, the new channel has the last slot, and exactly its id is added |
| `OutChanMux.OutChans.OnClosed` | main/rpc/websocket.go:353-373 | the slices stay aligned, exactly the closed channel's id is gone, and the notice bears the id of the last slot, which is right if and only if the last slot closed |
| `OutChanMux.OutChans.OnValue` | main/rpc/websocket.go:376-384 | the value frame bears the id under which the slot's channel was registered |
| `OutChanMux.OutChans.HandleOutChans` | main/rpc/websocket.go:318-385 | the loop keeps the slices aligned and forwards, for each source channel, exactly the values received from it in order |
| `OutChanMux.RemoveAligned` | main/rpc/websocket.go:353-364 | swap-removal keeps the slices aligned and drops exactly the closed channel's id |
| `OutChanMux.CloseNoticeExact` | main/rpc/websocket.go:356-372 | the notice names the last slot's channel, which is the closed one if and only if it held the last slot; otherwise the named channel stays registered |
| `OutChanMux.CloseNoticeCanMislead` | main/rpc/websocket.go:356-372 | two channels for which the notice is wrong |
| `OutChanMux.ForwardsInOrder` | main/rpc/websocket.go:318-385 | in every run, for each source channel the values forwarded under its ids are the values received from it, in order |
| `RpcTheorems.CallMatching` | main/rpc/client.go:373-450 | in every interleaving, an answer a caller returns with is the unchanged response of a server task that ran exactly that caller's id, method and parameters, and it is the right response to them: the method ran exactly when it can, on the decoded parameters; the response tells its value, and its error under code 1; -32601, -32602, -32700 and 0 each have their one cause |
| `RpcTheorems.OwnResult` | main/rpc/handler.go:109-176 | the caller's answer has the code its request deserves, or tells the value and the error its own method can give on exactly its own decoded parameters, code 0 if the method panicked; the id in a streaming answer is registered for the very channel the method returned |
| `RpcTheorems.ArgumentsToResult` | main/rpc/client.go:374-387 | with agreeing types and lossless JSON, the answer tells the value and the error of the method on exactly the caller's arguments |
| `RpcReturns.CallerGetsResults` | main/rpc/client.go:425-465 | in every interleaving, the outputs of a client method are the value and the error, with its text, that its own method returned on its own decoded parameters; a refused or panicking call leaves no value and an error with its code; a value that does not unmarshal takes the error along |
| `RpcReturns.ProcessReply` | main/rpc/client.go:436-465 | the outputs are filled by position as specified |
| `RpcReturns.ErrorArrivesExactly` | main/rpc/client.go:436-445 | the caller sees an error exactly when the method returned one and its value unmarshals |
| `RpcReturns.UnreadableValueLosesError` | main/rpc/client.go:84-96 | a value and an error for which the caller gets neither |
| `RpcTheorems.OneResponseOneDone` | main/rpc/handler.go:105-187 | in every interleaving, a handler that has returned attempted one response, its own and right, and then called `done` once; its cancel function stays on record exactly for an accepted streaming call |
| `RpcTheorems.NeverTwice` | main/rpc/handler.go:105-187 | at every moment a handler has at most one attempt, no `done` before it, and the one `done` is called or still owed |
| `RpcTheorems.NoAnswerLost` | main/rpc/websocket.go:247-283 | a response the client has read is the one reply on its caller's channel, unless a streaming caller got a result that is neither a number nor null; no id is answered twice on the wire |
| `RpcTheorems.ExecutedAtMostOnce` | main/rpc/websocket.go:436-473 | no two server tasks run the same request |
| `RpcTheorems.ResponseBeforeStream` | main/rpc/handler.go:178-186 | in every interleaving each value or close notification is preceded on the wire by the response that carries its channel's id |
| `RpcSystem.MuxWriteKeeps` | main/rpc/websocket.go:232-244 | writing a pending notification, possible only while the write lock is free, keeps the system invariant, so its channel's response is already on the wire |
| `RpcSystem.AcceptKeeps` | main/rpc/websocket.go:388-401 | a registration keeps the system invariant: ids stay distinct, the slices stay aligned, and each registered id is announced on the wire or about to be by the lock's holder |
| `RpcTheorems.WriteLockIsExclusive` | main/rpc/websocket.go:214-228 | at most one handler holds the write lock |
| `RpcTheorems.ServedAsCalls` | main/rpc/websocket.go:477-495 | every request the server reads bears a name that is routed to a handler, not to the connection's own commands |
| `RpcStreams.IdStandsForOwnChannel` | main/rpc/handler.go:178-186 | in every interleaving the channel id in a written response is positive and registered for the channel the task's own method returned |
| `RpcStreams.WireKeepsChannelOrder` | main/rpc/websocket.go:318-401 | in every interleaving and for every source channel, the values on the wire under its ids, then the one waiting to be written, are exactly the values received from it, in order |
| `RpcStreams.NotificationsGoUnheard` | main/rpc/websocket.go:404-432 | a notification on the wire has a positive id and carries no channel the client could read, and reading it changes nothing |
| `RpcHandlers.StreamFindsCaller` | main/rpc/websocket.go:257-283 | in every interleaving, a response with a number that a streaming caller has read is the one reply on its channel, and the number is handled for that caller unless a later response to a streaming caller bears it too, which none does if every streaming caller calls a streaming method |
| `RpcWedge.HolderMovesUnlessWedged` | main/rpc/websocket.go:388-401 | in every interleaving the lock's holder has a next event if and only if it is not offering a registration to a multiplexer with a notice to write |
| `RpcWedge.ReleasedUnlessDoomed` | main/rpc/websocket.go:214-244 | in every interleaving some continuation releases the held lock if and only if the multiplexer has no notice to write or the holder need not register any more |
| `RpcWedge.WedgedForever` | main/rpc/websocket.go:318-401 | otherwise no continuation writes anything or moves the lock, and a call whose response is not on the wire is never answered |
| `RpcWedge.TwoStreamsWedge` | main/rpc/websocket.go:318-401 | a run of two streaming calls that ends so, with one response written |
| `RpcProgress.EveryCallCanReturn` | main/rpc/client.go:373-434 | in every interleaving, while the loop serves, the wire can be decoded and the lock's holder is not doomed, some continuation handles a new call to the end and returns to its caller the right response to whatever its method does |
| `RpcProgress.EveryValueCanGoOut` | main/rpc/websocket.go:318-385 | in every interleaving, unless the lock's holder is doomed, what any open channel yields next can be received and reach the wire under the channel's id, and so can a notice of its closing |
| `OutStream.OneDrainer` | main/rpc/client.go:132-169 | in every interleaving at most one drainer is alive, and a buffered value always has one |
| `OutStream.LockFreeWhileWaiting` | main/rpc/client.go:140-158 | while a drainer waits on the consumer no drainer holds the mutex |
| `OutStream.DeliveredInOrder` | main/rpc/client.go:108-171 | delivered values are a prefix of the accepted ones, and until cancellation delivered followed by buffered is exactly what was accepted |
| `OutStream.ConsumerGetsNext` | main/rpc/client.go:145-157 | a drainer waiting on the consumer can hand over, and what it hands over is the first value the consumer does not have |
| `OutStream.EverythingCanArrive` | main/rpc/client.go:108-171 | from every reachable state some continuation brings the stream to rest: every accepted value is delivered, or, once the context is cancelled, nothing more is |
| `Dispatch.Register` | main/rpc/handler.go:191-226 | every method gets a handler whose parameter types are its inputs after receiver and context and whose value and error are at their places, other handlers are kept, and it fails exactly on unsupported outputs |
| `Dispatch.FuncOut` | main/rpc/util.go:39-61 | the error is the last output if that has the error type, the value the first output unless that is a lone error; every output is one of the two; it fails exactly on more than two outputs, or two of which the second is no error |
| `Dispatch.FillParams` | main/rpc/handler.go:132-148 | every slot is filled, with receiver, context and decoded parameters in order, or decoding fails |
| `Dispatch.Body` | main/rpc/handler.go:105-187 | before the deferred calls run, one response has been attempted and `done` is called or deferred, once in total; over a transport that streams it takes exactly the steps a handler of the composed system takes |
| `Dispatch.Handle` | main/rpc/handler.go:105-187 | on every path exactly one response attempt and then exactly one `done`, explicit or deferred; the method runs if and only if the request can be served, on its own decoded parameters; the response tells its value and error, or has exactly the code of what went wrong; the context is kept exactly for an accepted call of a method that returns a channel |
| `Dispatch.KeepsExactly` | main/rpc/handler.go:121-123 | the flag for keeping the context is set exactly for an accepted call of a method whose value is a channel |
| `Dispatch.ArgumentsArrive` | main/rpc/client.go:374-387 | the client's non-context arguments are the server call's non-context arguments, in order |
| `Dispatch.QualifiedIsCall` | main/rpc/websocket.go:477-495 | the qualified name of a method whose own name starts with a capital letter of any script is never taken for a response or a built-in |
| `ConnTracker.Server.OnConnState` | main/httptest/server.go:291-334 | panics exactly when the connection is tracked and the lifecycle forbids the transition; otherwise the counter keeps agreeing, only this connection changes and has the reported state, and a closed server closes a new or idle one |
| `ConnTracker.Server.ForgetConn` | main/httptest/server.go:353-358 | the connection is untracked, the counter drops exactly if it was tracked, and the two keep agreeing |
| `ConnTracker.Server.Close` | main/httptest/server.go:148-181 | in any range order, the first call closes each new or idle connection exactly once and no other, a later call closes none, and the counter keeps agreeing |
| `ConnTracker.CounterAgrees` | main/httptest/server.go:246-270 | in every run, also past recovered panics, the WaitGroup counter is the number of tracked connections plus goServe's tokens, never negative |
| `ConnTracker.WaitNeverReturns` | main/httptest/server.go:246-270 | in every run a wait can return if and only if goServe has not started and nothing is tracked |
| `ConnTracker.IdleServerCannotClose` | main/httptest/server.go:146-199 | started servers without any connection, closed before and after Serve returns: their wait cannot return |
| `ConnTracker.CloseSafety` | main/httptest/server.go:294-330 | after Close, every tracked connection that is new or idle has been told to close, including later arrivals; before Close none has |
| `ConnTracker.LawfulRunsDoNotPanic` | main/httptest/server.go:289-335 | in runs that obey the net/http lifecycle no report panics, recovered or not |
| `ConnTracker.PanicsExactly` | main/httptest/server.go:294-330 | a report panics exactly when the connection is tracked and is new again, active again, or idle without having been active: the transitions to a live state that the lifecycle forbids |
| `ReplicaMap.CompareLexicographic` | main/extern/filecoin-ffi/proofs.go:52-54 | the comparison orders byte strings by their first difference, a proper prefix first |
| `ReplicaMap.NewSortedPublicSectorInfo` | main/extern/filecoin-ffi/proofs.go:51-61 | the slice becomes some ascending arrangement of itself by commitment |
| `ReplicaMap.Flatten` | main/extern/filecoin-ffi/proofs.go:230-241 | ids and concatenated commitments in list order |
| `ReplicaMap.IntoCommitments` | main/extern/filecoin-ffi/rust/src/proofs/helpers.rs:73-87 | consecutive 32-byte windows of the buffer, which stay in bounds if and only if its length is a multiple of 32 |
| `ReplicaMap.ToPublicReplicaInfoMap` | main/extern/filecoin-ffi/rust/src/proofs/helpers.rs:22-55 | null pointers, a ragged buffer and a length mismatch each exactly when they occur, and otherwise the insertion of all pairs |
| `ReplicaMap.ChunksOfFlat` | main/extern/filecoin-ffi/rust/src/proofs/helpers.rs:73-87 | splitting the flattened buffer recovers the commitments |
| `ReplicaMap.ReplicaMapExact` | main/extern/filecoin-ffi/rust/src/proofs/helpers.rs:22-55 | for every input and every outcome of the sort, each sector id maps to its lexicographically greatest commitment, or an error if and only if some commitment is invalid |
| `ReplicaMap.OrderIndependent` | main/extern/filecoin-ffi/proofs.go:51-61 | permuting the input, or sorting ties differently, changes nothing |
| `ReplicaMap.VerifyPoStInputs` | main/extern/filecoin-ffi/proofs.go:219-285 | sorted infos handed from Go to Rust yield the specified map |

## Left out

- Dashboard polling, shell commands, sample data and the HTTP post (main/clientrpc.go, main/localserver.go, main/server/server.go): I/O and constants only.
- Listener setup, flags, timers, `CloseClientConnections` and hang diagnostics of the test server: library plumbing.
- BLS, sealing, PoSt and commitment calls: thin wrappers over cryptographic libraries; the validity check of a replica info is the parameter `valid`.
- Cancellation frames, cancelling handlers at shutdown, and a remote close racing a drainer.
- The server's own teardown: its loop leaving, and the registration channel closing under a handler.
- Fairness: the models say which events and continuations are possible, not that they come about.
- The id inside a shutdown error and the text of dispatch errors.
- Failing socket writes, notifications calling the server without an id, trace spans, and 64-bit exhaustion of the id counters and of `Len`.
- sort.Slice, PutUvarint and Uvarint are modelled by what they compute, not by their library code.
