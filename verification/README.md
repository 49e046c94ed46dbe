# Verified models of the control-plane shared libraries

This project models six stateful components of the repository in Dafny and proves what they
promise, for every input, every run and every interleaving.

- **The proxy's data path.** `BlockChain`, `BlockPool`, `BufferLaws` and `ProxyBuffer` model the
  scatter-gather buffer as what it is in memory: raw pointers into a map of live blocks, null as
  address 0, a freelist shared by several buffers. Reading through a pointer requires that a block
  lives there, so every dereference carries a proof. `Socks5` is the handshake as a function on
  values, `Socks5Grammar` which byte streams it accepts and what it makes of them, `Socks5Server` the
  parser object that refines it on the buffer, `Socks5Client` the preloaded client and the
  composition of both. `Forwarding` is a session as a step machine whose
  environment completes reads and writes in any order with any byte counts and errors;
  `ProxyBridge` is the bridge object, whose handlers take exactly those steps, with the bytes that
  the system really finds in the memory handed to it.
- **WASM arguments.** `WasmMemory` is the layout, `WasmSerializer` writes it in place,
  `WasmDeserializer` reads it back, `WasmArguments` places a whole argument list.
- **The timed executor.** `TimedExecutor`: clients, worker thread, condition variable, clock,
  cancellation, stops and further runs as interleaved steps, each as large as the code's critical
  section.
- **The auto-expiry map.** `ExpiryMap`: the garbage collection protocol against concurrent clients.
  `ExpiryLaws`: what each step may change, and how rounds go on and come to an end.
- **The pending calls of an HTTP connection.** `PendingCalls`: I/O thread, callers and stop racing to
  finish a call.
- **The LRU cache.** `LruCache`: map and freshness list against a definition over the history.

How the models stand to the code:

- Loops are loops. The buffer's loops work on the object's fields and the memory as local
  variables and return the new values; the class methods store them.
- The machines (`Forwarding`, `TimedExecutor`, `ExpiryMap`, `PendingCalls`) define `After` on an
  arbitrary sequence of events. An event that cannot happen in a state is skipped, so a lemma about
  `After` is a statement about all runs.
- Sockets, clocks, callbacks and the kernel are the environment: parameters, or events with
  arbitrary arguments. A handshake callback's answer is a function of the callbacks made before it.
- Ports and addresses stay in network byte order, so the conversions to host order and back around
  the bind callback are the identity.
- `hide` statements at the head of a proof leave out definitions it does not use.
- A block's bytes are zero when it is allocated; no contract depends on it.

Where the code does not do what its description or a reader expects, the model follows the code:

- The handshake's `ConnectionSucceed` returns true even if the reply could not be sent, although its
  header comment promises otherwise (`Socks5Client.SucceedsUnheard`); it does what the comment says
  exactly if no connection was awaited or the reply gets through (`Socks5.SucceedsAsDescribed`).
- How many bytes a *failed* handshake still asks for depends on how the stream was cut
  (`Socks5.RequiredAfterFailure`); `Socks5.RequiredExact` says exactly when it does not, and
  everything else never does (`Socks5.ChunkingInvariance`).
- A reply whose bound address is neither IPv4 nor IPv6 has three bytes, and the client then eats into
  the destination's stream; it does not exactly if the address is one of the two
  (`Socks5Client.HandshakeComposes`).
- An empty string, or a list that begins with one, is refused at offset 0 of WASM memory, and a string
  that begins with a NUL reads back empty; the contracts are if-and-only-ifs that say so.
- The room for a string read from WASM memory is computed in 32 bits: a length word of 0xFFFFFFFF
  reserves nothing, and the read overruns it if so many bytes are there, which takes a memory of
  4 GiB or one byte less (`WasmDeserializer.OverrunWitness`, `WasmDeserializer.SafeBelow`). The
  readers' contracts say exactly when they are safe.
- A task pushed through the gap between the check of the running flag and the lock can be stranded
  (`TimedExecutor.Stranded`). A stop has the same gap and may then drop it
  (`TimedExecutor.StrandedThenDropped`). What is left behind, and when it stays, is exact
  (`TimedExecutor.ExitLeavesOnlyLate`, `TimedExecutor.StrandedUnless`).
- An executor that is run again does not reset its next timestamp. If one from before the stop lies
  ahead, the new worker sleeps past tasks (`TimedExecutor.MissesWhenRunAgain`); it misses nothing
  exactly if none does (`TimedExecutor.RunAgain`).
- `Cancel` returns true for a task that already ran (`TimedExecutor.CancelsTooLate`); it prevents a
  task exactly if it has not started (`TimedExecutor.CancelPrevents`).
- An HTTP call inserted after a stop has looked for pending calls is orphaned
  (`PendingCalls.Orphan`); the calls left pending are exactly those, and they stay pending until the
  connection is run or stopped again (`PendingCalls.StopLeavesOnlyLate`, `PendingCalls.OrphanForever`).
- The collector erases by key: an entry that a client erases and inserts again can be removed although
  it is new, even if this happens before the collector has marked the old one (`ExpiryMap.RemovesNewEntry`).
  It removes what it may exactly if no client has erased the entry it is about
  (`ExpiryMap.RemovesOnlyWhatItMay`).

## Model

| member | source | states |
|---|---|---|
| `BlockPool.NewLaw` | cc/aws/proxy/src/freelist.h:35-48 | the block handed out is empty, is no longer on the freelist and was held by nobody: it is the recycled top, or did not exist; no other header and no byte of an existing block changes |
| `BlockPool.DeleteLaw` | cc/aws/proxy/src/freelist.h:51-58 | a returned block becomes the top of a freelist that is otherwise the same and still has no block twice |
| `BlockPool.Freelist.DeleteChain` | cc/aws/proxy/src/freelist.h:61-76 | a whole chain goes in front of the freelist in its own order, the count grows by its length, and no header outside the chain changes |
| `BlockPool.Freelist.Clear` | cc/aws/proxy/src/freelist.h:79-84 | exactly the saved blocks are given back to the system, no block in use is |
| `BlockChain.FillLaw` | cc/aws/proxy/src/buffer.h:98-104 | a turn of a commit moves exactly the first free bytes behind the data, in order, and keeps the chain's shape |
| `BlockChain.DrainBytes` | cc/aws/proxy/src/buffer.h:107-114 | draining within the first block, pruned or not, removes exactly the first data bytes and moves no free byte |
| `BlockChain.DrainSpans` | cc/aws/proxy/src/buffer.h:248-257 | spans reserved before a drain are, after it, still exactly the free space at the boundary, even when the block before them is pruned |
| `ProxyBuffer.AppendNewBlock` | cc/aws/proxy/src/buffer.h:305-320 | the queue, the open reservation and the free bytes there were stay; the new block's memory comes behind them; only own and recycled blocks are touched |
| `ProxyBuffer.ReserveLoop` | cc/aws/proxy/src/buffer.h:172-182 | the spans add up to the size asked for and are consecutive free space from the boundary on; the queue is unchanged |
| `ProxyBuffer.ReserveAtLeastLoop` | cc/aws/proxy/src/buffer.h:188-203 | whole-block spans that cover the size and overshoot it by less than one block |
| `ProxyBuffer.CommitLoop` | cc/aws/proxy/src/buffer.h:218-226 | across block boundaries, exactly the first `size` free bytes become the last bytes of the queue, in order; blocks before the boundary do not change and no block moves |
| `ProxyBuffer.DrainBuffer` | cc/aws/proxy/src/buffer.h:243-269 | exactly the first `size` bytes leave the queue; emptied blocks go to the freelist; end pointer and offset are repaired when nothing is left; with a reservation open its spans and the free space do not move |
| `ProxyBuffer.PeekLoop` | cc/aws/proxy/src/buffer.h:230-239 | the spans lie over the data of the first blocks up to the boundary and, read one after the other, show the whole queue |
| `ProxyBuffer.Scatter` | cc/aws/proxy/src/buffer.h:273-280 | bytes written span by span replace exactly the first free bytes and no byte of the queue |
| `ProxyBuffer.GatherLoop` | cc/aws/proxy/src/buffer.h:285-299 | the bytes copied out are the first `size` shown, or all if there are fewer |
| `BufferLaws.Undisturbed` | cc/aws/proxy/src/proxy_bridge.h:54-55 | whatever one buffer does, a second buffer on the same freelist keeps its queue, its free space and its soundness, and the two never share a block |
| `ProxyBuffer.Buffer.constructor` | cc/aws/proxy/src/buffer.h:133-146 | a sound buffer with an empty queue and no block |
| `ProxyBuffer.Buffer.SpaceSize` | cc/aws/proxy/src/buffer.h:151-158 | the product formula gives exactly the number of free bytes |
| `ProxyBuffer.Buffer.Reserve` | cc/aws/proxy/src/buffer.h:166-184 | a reservation of exactly the size asked for; queue unchanged, foreign blocks untouched, and the bytes in spans peeked before stay as they are |
| `ProxyBuffer.Buffer.ReserveAtLeast` | cc/aws/proxy/src/buffer.h:188-203 | a reservation that overshoots by less than one block; queue and peeked bytes stay as they are |
| `ProxyBuffer.Buffer.ReservedFirst` | cc/aws/proxy/src/buffer.h:166-184 | what lies in the reserved spans, read in order, is the start of the free space, which is what a commit publishes |
| `ProxyBuffer.Buffer.Commit` | cc/aws/proxy/src/buffer.h:214-226 | the queue grows by exactly the first `size` free bytes, the reservation is closed, and the peeked bytes stay as they are |
| `ProxyBuffer.Buffer.Peek` | cc/aws/proxy/src/buffer.h:230-239 | the returned spans lie in live blocks and show the whole queue; as long as the peek goes on they are part of the buffer's invariant |
| `ProxyBuffer.Buffer.PeekedFirst` | cc/aws/proxy/src/buffer.h:230-239 | at any time until the drain, whatever was reserved, written and committed since, the peeked spans lie in live blocks and hold the first bytes of the queue |
| `BufferLaws.PeekedKept` | cc/aws/proxy/src/buffer.h:166-240 | as long as the queue only grows at its end, spans over its data show the same bytes |
| `ProxyBuffer.Buffer.Drain` | cc/aws/proxy/src/buffer.h:243-269 | the queue loses exactly its first `size` bytes; an open reservation stays valid and its free space unchanged |
| `ProxyBuffer.Buffer.Receive` | cc/aws/proxy/src/proxy_bridge.cc:135-137 | bytes that arrive in the reserved spans and are committed become the end of the queue; the peeked bytes stay as they are |
| `ProxyBuffer.Buffer.CopyIn` | cc/aws/proxy/src/buffer.h:273-281 | the queue grows by exactly the given bytes |
| `ProxyBuffer.Buffer.CopyOut` | cc/aws/proxy/src/buffer.h:285-301 | the first bytes of the queue, as many as asked for and there are, are returned and removed |
| `ProxyBuffer.Buffer.Release` | cc/aws/proxy/src/buffer.h:148-148 | on destruction every block of the chain is on the freelist, no other is added, and blocks that are neither keep header and bytes |
| `Socks5.StepLaw` | cc/aws/proxy/src/socks5_state.cc:70-311 | every state waits for the byte count its message part has, and every call that returns true moves strictly closer to a final state |
| `Socks5.StepReturns` | cc/aws/proxy/src/socks5_state.cc:70-311 | a call returns true if and only if it has got further, has not failed and no callback has to finish first |
| `Socks5.RunFeed` | cc/aws/proxy/src/socks5_state.cc:70-311 | running on the bytes at hand and again when more arrive is the same as running once on all of them |
| `Socks5.ChunkingInvariance` | cc/aws/proxy/src/proxy_bridge.cc:67-90 | however the stream is cut into reads: same state, same callbacks with the same arguments, same bytes left |
| `Socks5.RequiredAfterFailure` | cc/aws/proxy/src/socks5_state.cc:90-96 | an input for which the number of bytes still asked for after a failure depends on the cut |
| `Socks5.RequiredExact` | cc/aws/proxy/src/socks5_state.cc:71-96 | for every cut the number is that of one whole read if and only if the handshake does not fail, asks for none, has fewer bytes behind the failure, or fails with the last read |
| `Socks5.RunLaw` | cc/aws/proxy/src/proxy_bridge.cc:74-75 | the handshake consumes a prefix of the stream and never takes back a callback |
| `Socks5.ConnectionSucceed` | cc/aws/proxy/src/socks5_state.cc:313-332 | true, with the handshake successful, exactly if a connection was awaited, failed otherwise; the last callback is the reply, and before it the local address is asked for after a connect, the peer's after a bind; no byte is consumed |
| `Socks5.SucceedsAsDescribed` | cc/aws/proxy/src/socks5_state.h:104-106 | for every state it returns what the header describes if and only if no connection was awaited or the reply callback succeeds |
| `Socks5Grammar.GreetingExact` | cc/aws/proxy/src/socks5_state.cc:79-127 | for every version, list of methods and what follows: the greeting is answered if and only if the version is 5 and no authentication is offered, anywhere in the list; otherwise the handshake fails without a callback; it goes on only if the answer gets through |
| `Socks5Grammar.GreetingWaits` | cc/aws/proxy/src/socks5_state.cc:71-100 | an incomplete greeting is waited for, without a callback |
| `Socks5Grammar.HeaderExact` | cc/aws/proxy/src/socks5_state.cc:128-184 | for all four header bytes: the request leads on if and only if they are version 5, connect or bind, zero, IPv4 or IPv6; which state and byte count follow |
| `Socks5Grammar.AddressExact` | cc/aws/proxy/src/socks5_state.cc:185-240 | for every address and each answer of the connect callback, or none set: the address asked for is the one sent, and state, callbacks and rest afterwards |
| `Socks5Grammar.BindExact` | cc/aws/proxy/src/socks5_state.cc:241-271 | for every address, port and each answer of the bind and response callbacks: only the port is asked for, and state, callbacks and rest afterwards |
| `Socks5Grammar.MessageExact` | cc/aws/proxy/src/socks5_state.cc:70-311 | for every greeting and request, whatever its bytes, every environment and every cut into reads: which callbacks are made, with which arguments, where the handshake stands, and that what follows is untouched |
| `Socks5Grammar.AddrRoundTrip` | cc/aws/proxy/src/protocol.cc:39-62 | the address part of a message reads back as the address, for every IPv4 and IPv6 one |
| `Socks5Grammar.FinalReplyExact` | cc/aws/proxy/src/socks5_state.cc:35-66 | when the connection is there, exactly the address is asked for and the reply sent; it reads back as the local address, or as the peer's after a bind, or is an error with an empty address if that is not known |
| `Socks5Client.RecvAll` | cc/aws/proxy/src/preload.cc:289-309 | whatever the system calls deliver, the result is a prefix of the stream, as long as asked for unless the stream ended or a call failed |
| `Socks5Client.ClientConnect` | cc/aws/proxy/src/preload.cc:336-451 | sends greeting and request for the address; if they go out and the replies come in whole, result and bytes taken depend only on the stream, not on how it is delivered; it gives up only if the stream is too short, the calls run out or one fails |
| `Socks5Client.ServerDecodesRequest` | cc/aws/proxy/src/preload.cc:354-371 | for every IPv4 and IPv6 address, every cut of the request and every answer of the connect callback, the server asks for a connection to exactly that address and leaves what follows untouched |
| `Socks5Client.ServerDecodesBind` | cc/aws/proxy/src/socks5_state.cc:241-271 | for every bind request in any chunks: exactly the port asked for is bound, whatever the address, the reply carries exactly the port bound, and what follows is untouched; it waits for the connection exactly if the reply has not failed |
| `Socks5Client.SucceedsUnheard` | cc/aws/proxy/src/socks5_state.cc:326-331 | for every request in any chunks, a handshake whose callbacks all succeed up to the final reply, which fails, still counts as successful |
| `Socks5Client.ClientAccepts` | cc/aws/proxy/src/preload.cc:415-450 | for every reply RFC 1928 allows, with an IPv4 or IPv6 address or a name of any length, and whatever follows: the client succeeds and takes exactly the reply |
| `Socks5Client.ClientGuesses` | cc/aws/proxy/src/preload.cc:400-450 | of any other address type it takes eight bytes for the address |
| `Socks5Client.ClientRejects` | cc/aws/proxy/src/preload.cc:406-414 | with other first bytes it fails, with the negated reply code if there is one |
| `Socks5Client.ClientStarves` | cc/aws/proxy/src/preload.cc:401-450 | of replies that break off, wherever, it makes a failure |
| `Socks5Client.ClientTakesReply` | cc/aws/proxy/src/protocol.cc:39-62 | the client takes exactly the two replies, for every bound IPv4 or IPv6 address, whatever follows them |
| `Socks5Client.ClientOverreads` | cc/aws/proxy/src/protocol.cc:59-61 | with any other bound address a client that succeeds has taken bytes of the destination |
| `Socks5Client.ClientSeesFailure` | cc/aws/proxy/src/socks5_state.cc:58-65 | the error reply makes the client fail, whatever follows |
| `Socks5Client.HandshakeComposes` | cc/aws/proxy/src/socks5_state.cc:35-66 | after the whole exchange the client has been told exactly the bound address, and the destination's stream is untouched if and only if that is IPv4 or IPv6 |
| `Socks5Server.Transition` | cc/aws/proxy/src/socks5_state.cc:78-309 | the branches of one transition, with their callbacks, are those of the handshake function, of which `Socks5Grammar.MessageExact` says what it accepts |
| `Socks5Server.Socks5State.constructor` | cc/aws/proxy/src/socks5_state.h:77-80 | a parser at the start of the handshake |
| `Socks5Server.Socks5State.Consume` | cc/aws/proxy/src/socks5_state.cc:185-192 | takes exactly the bytes the state waits for, in one read or two |
| `Socks5Server.Socks5State.Proceed` | cc/aws/proxy/src/socks5_state.cc:70-311 | parser and buffer together take exactly one step of the handshake, `Socks5.StepReturns` included; open reservations and other buffers are untouched |
| `Socks5Server.Socks5State.Handshake` | cc/aws/proxy/src/proxy_bridge.cc:74-75 | the loop terminates in the configuration the handshake function computes |
| `Socks5Server.Socks5State.ConnectionSucceed` | cc/aws/proxy/src/socks5_state.cc:313-332 | does what the function on values does |
| `Forwarding.PumpLaw` | cc/aws/proxy/src/proxy_bridge.cc:92-133 | starting what is due keeps the bound and the flags right and leaves nothing to start; a read gets all the space reserved, a write all the data; where all was started it does nothing |
| `Forwarding.ReadLaw` | cc/aws/proxy/src/proxy_bridge.cc:135-153 | a completed read keeps bytes, bound and flags right, and the sink is told exactly if the source has ended and nothing is buffered |
| `Forwarding.WriteLaw` | cc/aws/proxy/src/proxy_bridge.cc:196-214 | a completed write does too |
| `Forwarding.HandleKeeps` | cc/aws/proxy/src/proxy_bridge.cc:67-224 | every handler keeps the whole session in order |
| `Forwarding.EndToEnd` | cc/aws/proxy/src/proxy_bridge.cc:67-214 | in every run and direction: of the bytes the environment delivered, the client's behind its handshake first, exactly those it took have been written, in order, and the others are buffered; the source has ended exactly if a read failed; the sink is given up exactly if a write failed, and then the source is told, or one left nothing of an ended source; the sink is shut down exactly if the source has ended and all is written |
| `Forwarding.BoundedBuffering` | cc/aws/proxy/src/proxy_bridge.cc:94-103 | in every run a direction buffers less than the maximum plus one read plus one block |
| `Forwarding.NoWedge` | cc/aws/proxy/src/proxy_bridge.cc:92-133 | in every run a direction without an outstanding operation has lost its sink or has finished and delivered everything |
| `Forwarding.HandshakeGoesOn` | cc/aws/proxy/src/proxy_bridge.cc:57-90 | in every run without a failed handshake read, until it forwards, the parser stands where one run over all bytes sent would, a read is outstanding exactly if it lacks bytes, and otherwise it waits for a connection or has failed |
| `Forwarding.HalfCloseNeverTruncates` | cc/aws/proxy/src/proxy_bridge.cc:135-214 | in every run, once a sink is shut down its source has ended, all bytes are written, and nothing is written however the run goes on |
| `ProxyBridge.OtherKept` | cc/aws/proxy/src/proxy_bridge.h:134-136 | an operation on one direction's buffer leaves the other direction's as it was, on one freelist or on two |
| `ProxyBridge.StartRead` | cc/aws/proxy/src/proxy_bridge.cc:94-103 | a read is outstanding exactly if the buffer has an open reservation, of at least the read size and less than a block more |
| `ProxyBridge.StartWrite` | cc/aws/proxy/src/proxy_bridge.cc:124-132 | a write is outstanding exactly if the buffer is being peeked, and what is handed to it are the peeked spans |
| `ProxyBridge.FinishRead` | cc/aws/proxy/src/proxy_bridge.cc:135-151 | the bytes that arrived are behind the queue; shutdown is issued exactly if the source ended with nothing buffered |
| `ProxyBridge.FinishWrite` | cc/aws/proxy/src/proxy_bridge.cc:196-212 | the bytes on the wire are the first ones found in the memory handed to the write, they are the first of the queue and have left it; shutdown is issued exactly if the source has ended and nothing is left |
| `ProxyBridge.ForwardTraffic` | cc/aws/proxy/src/proxy_bridge.cc:92-133 | flags, buffers and handed-out memory of both directions are those of the pumped channels |
| `ProxyBridge.OnHandshakeRead` | cc/aws/proxy/src/proxy_bridge.cc:67-85 | the parser has run on all bytes so far and another read is outstanding exactly if it lacks bytes |
| `ProxyBridge.ProxyBridge.constructor` | cc/aws/proxy/src/proxy_bridge.h:46-62 | a session that has not begun, on one freelist or on two |
| `ProxyBridge.ProxyBridge.PerformSocks5Handshake` | cc/aws/proxy/src/proxy_bridge.cc:57-65 | the session's first read is outstanding |
| `ProxyBridge.ProxyBridge.Socks5HandshakeHandler` | cc/aws/proxy/src/proxy_bridge.cc:67-90 | takes the session's step for a handshake read; no buffer is used out of turn |
| `ProxyBridge.ProxyBridge.ConnectHandler` | cc/aws/proxy/src/proxy_bridge.cc:216-224 | takes the session's step for a connection that is there or failed, also for an accepted one |
| `ProxyBridge.ProxyBridge.ClientReadHandler` | cc/aws/proxy/src/proxy_bridge.cc:135-153 | takes the session's step for a read from the client |
| `ProxyBridge.ProxyBridge.DestWriteHandler` | cc/aws/proxy/src/proxy_bridge.cc:196-214 | takes the session's step for a write to the destination |
| `ProxyBridge.ProxyBridge.DestReadHandler` | cc/aws/proxy/src/proxy_bridge.cc:176-194 | takes the session's step for a read from the destination |
| `ProxyBridge.ProxyBridge.ClientWriteHandler` | cc/aws/proxy/src/proxy_bridge.cc:155-174 | takes the session's step for a write to the client |
| `ProxyBridge.ProxyBridge.Guarantees` | cc/aws/proxy/src/proxy_bridge.cc:92-214 | of the real buffers, flags, wires and sockets, whenever the bridge forwards: bytes put on the wire, then buffered, are the bytes read; an operation is outstanding exactly if its buffer is in use; the memory handed to an outstanding write still holds the next bytes; buffers are bounded; a socket is shut down for sending exactly if its source has ended and nothing is buffered, and then no operation is outstanding; a direction given up has had its source shut down for receiving, or its sink for sending |
| `WasmSerializer.WriteUint16` | cc/roma/wasm/src/serializer.cc:61-69 | succeeds exactly if two bytes fit, and then writes the little-endian halfword there and nothing else, in spite of wrapping checks |
| `WasmSerializer.WriteUint32` | cc/roma/wasm/src/serializer.cc:71-79 | the same for a word |
| `WasmSerializer.WriteRawString` | cc/roma/wasm/src/serializer.cc:81-97 | succeeds exactly if the string fits and is not the empty one at offset 0; otherwise memory is unchanged |
| `WasmSerializer.WriteCustomString` | cc/roma/wasm/src/serializer.cc:99-118 | succeeds exactly if bytes and struct fit, writes exactly that image, and returns the struct's address; a failure leaves everything below the offset alone |
| `WasmSerializer.WriteCustomListOfString` | cc/roma/wasm/src/serializer.cc:120-160 | succeeds exactly if the whole list fits and does not start with an empty string at offset 0, and writes exactly its image |
| `WasmSerializer.ComputeMemorySizeFor` | cc/roma/wasm/src/wasm_types.h:74-87 | the size computed is the size of the image that is written, at any offset |
| `WasmDeserializer.ReadRawString` | cc/roma/wasm/src/deserializer.cc:82-93 | for every offset and length, the bytes there, or an empty C string if the range is empty or leaves the memory |
| `WasmDeserializer.ReadCustomString` | cc/roma/wasm/src/deserializer.cc:95-123 | for every pointer: safe exactly if the string is not one of 0xFFFFFFFF bytes that are there; then the string there, up to a leading NUL, or nothing if struct or bytes are outside, although the 32-bit check can wrap |
| `WasmDeserializer.ReadCustomListOfString` | cc/roma/wasm/src/deserializer.cc:125-159 | for every pointer: safe exactly if no string it gets to overruns; then the earlier output followed by the strings of the list, or nothing at all if it cannot be read |
| `WasmDeserializer.SafeBelow` | cc/roma/wasm/src/deserializer.cc:110-114 | in every memory of less than 4 GiB minus one byte both readers are safe at every pointer |
| `WasmDeserializer.OverrunWitness` | cc/roma/wasm/src/deserializer.cc:110-114 | a memory of 4 GiB in which one is not |
| `WasmDeserializer.StringRoundTrip` | cc/roma/wasm/src/deserializer.cc:95-123 | a string image anywhere in memory reads back safely as its string, up to a leading NUL |
| `WasmDeserializer.StringReads` | cc/roma/wasm/src/deserializer.cc:95-123 | wherever the bytes of a string lie and wherever a struct pointing to them: that string is read, up to a leading NUL |
| `WasmDeserializer.StringUnreadable` | cc/roma/wasm/src/deserializer.cc:95-123 | a struct or bytes outside the memory read as nothing |
| `WasmDeserializer.ListReads` | cc/roma/wasm/src/deserializer.cc:125-159 | wherever the pointers of a list lie, in any order, and wherever a struct pointing to them: what they lead to is read, behind what was read before |
| `WasmDeserializer.ListUnreadable` | cc/roma/wasm/src/deserializer.cc:125-159 | pointers that leave the memory make the whole list unreadable |
| `WasmDeserializer.ListRoundTrip` | cc/roma/wasm/src/deserializer.cc:125-159 | so does a list image |
| `WasmDeserializer.VisibleExact` | cc/roma/wasm/src/deserializer.cc:116-120 | a list reads back unchanged if and only if none of its strings starts with a NUL |
| `WasmArguments.PlaceOne` | cc/roma/worker/src/execution_utils.cc:433-485 | one argument is placed exactly if it is supported, fits and is not refused at offset 0 |
| `WasmArguments.StoreNext` | cc/roma/worker/src/execution_utils.cc:458-484 | writing the next argument leaves all earlier ones in place |
| `WasmArguments.PlaceArguments` | cc/roma/worker/src/execution_utils.cc:427-492 | succeeds if and only if all arguments are supported, their sizes add up to no more than the memory, and none that starts empty comes at offset 0; then every value passed reads back as its own argument |
| `TimedExecutor.StepKeeps` | cc/core/async_executor/src/single_thread_priority_async_executor.cc:85-193 | every step of client, stop, worker and clock keeps the next timestamp least, the sleeper's deadline right unless a stale timestamp misled it, the starts punctual, the tasks accounted for and one successful cancel per task |
| `TimedExecutor.NeverMissed` | cc/core/async_executor/src/single_thread_priority_async_executor.cc:90-96 | in every run a sleeping worker can wake up whenever the executor was stopped or a queued task is overdue by the lag, provided it was not run again with a stale timestamp, which only a further run can bring about |
| `TimedExecutor.RunAgain` | cc/core/async_executor/src/single_thread_priority_async_executor.cc:57-96 | an executor that is run again and can take a task misses nothing until its next run if and only if no timestamp from before lies ahead when it is run |
| `TimedExecutor.MissesWhenRunAgain` | cc/core/async_executor/src/single_thread_priority_async_executor.cc:108-115 | a run in which one does: stop, run again, and a task is overdue while the worker sleeps |
| `TimedExecutor.NeverEarly` | cc/core/async_executor/src/single_thread_priority_async_executor.cc:117-131 | in every run no task starts before its timestamp, none twice, none that was cancelled before it started |
| `TimedExecutor.Conservation` | cc/core/async_executor/src/single_thread_priority_async_executor.cc:102-147 | in every run each pushed task is in exactly one of queued, about to run, run, skipped, dropped; it is skipped only if a call cancelled it, dropped only if a stop of a dropping executor did; the queue keeps to its cap |
| `TimedExecutor.PushExact` | cc/core/async_executor/src/single_thread_priority_async_executor.cc:169-193 | in every run a push is refused exactly if the queue is full, and otherwise queues a new task with its timestamp |
| `TimedExecutor.TakesLeast` | cc/core/async_executor/src/single_thread_priority_async_executor.cc:108-131 | in every run the worker takes a task exactly if one is due, then one of the least timestamp of all, and leaves exactly if the queue is empty and the executor stopped |
| `TimedExecutor.RunsUnlessCancelled` | cc/core/async_executor/src/async_task.h:57-65 | in every run a task that was taken runs, now, exactly if it has not been cancelled |
| `TimedExecutor.Served` | cc/core/async_executor/src/single_thread_priority_async_executor.cc:85-131 | from every state whose timestamp is not stale, a task that is overdue and not cancelled is run if only the worker goes on |
| `TimedExecutor.Leaves` | cc/core/async_executor/src/single_thread_priority_async_executor.cc:108-112 | from every such state a stopped executor with an empty queue lets its worker leave |
| `TimedExecutor.StopTakesEffect` | cc/core/async_executor/src/single_thread_priority_async_executor.cc:135-147 | a stop drops exactly what is queued, or nothing; in every continuation without a further run the executor stays stopped and no more tasks come in than callers were past their check |
| `TimedExecutor.ExitLeavesOnlyLate` | cc/core/async_executor/src/single_thread_priority_async_executor.cc:108-111 | in every run the worker has exited only if stopped, and the tasks in the queue are exactly those pushed since and not dropped by a later stop |
| `TimedExecutor.StrandedUnless` | cc/core/async_executor/src/single_thread_priority_async_executor.cc:135-184 | in every continuation without a further run such a task stays queued if and only if no dropping stop that was past its check gets the lock; else it is dropped |
| `TimedExecutor.Stranded` | cc/core/async_executor/src/single_thread_priority_async_executor.cc:172-176 | a run with such a task |
| `TimedExecutor.StrandedThenDropped` | cc/core/async_executor/src/single_thread_priority_async_executor.cc:135-147 | a run in which a second stop drops it |
| `TimedExecutor.CancelPrevents` | cc/core/async_executor/src/async_task.h:57-78 | a cancelled task is among those that run, in every continuation, if and only if it had started, and of the calls to cancel it exactly one returned true |
| `TimedExecutor.CancelsTooLate` | cc/core/async_executor/src/async_task.h:57-78 | a run in which a task has run to its end and a call to cancel it returns true |
| `ExpiryMap.StepKeeps` | cc/core/common/auto_expiry_concurrent_map/src/auto_expiry_concurrent_map.h:213-474 | every step of clients, collector, callbacks and stop keeps the protocol in order |
| `ExpiryMap.OneRoundAtATime` | cc/core/common/auto_expiry_concurrent_map/src/auto_expiry_concurrent_map.h:357-474 | in every run, whatever clients do: no round begins before the last is over, each round reschedules exactly once, and between rounds no entry is marked |
| `ExpiryMap.RemovesOnlyWhatItMay` | cc/core/common/auto_expiry_concurrent_map/src/auto_expiry_concurrent_map.h:397-453 | in every run an answer to remove takes exactly the record it is about, marked, evictable and expired, and no other entry, if and only if no client has erased that record |
| `ExpiryMap.RemovesNewEntry` | cc/core/common/auto_expiry_concurrent_map/src/auto_expiry_concurrent_map.h:399-416 | a run in which one has, and an entry that has not expired is removed |
| `ExpiryLaws.EntriesExact` | cc/core/common/auto_expiry_concurrent_map/src/auto_expiry_concurrent_map.h:213-474 | an entry comes into the map only by its insertion, fresh and unmarked, and leaves it only by its erasure or an answer to remove; every other step leaves every entry alone |
| `ExpiryLaws.RecordsExact` | cc/core/common/auto_expiry_concurrent_map/src/auto_expiry_concurrent_map.h:308-474 | a record is pinned, unpinned and extended only by clients, marked only by the collector and only if evictable and expired, and unmarked exactly by an answer to keep it or one whose erasure fails |
| `ExpiryLaws.KeptIfRefused` | cc/core/common/auto_expiry_concurrent_map/src/auto_expiry_concurrent_map.h:460-466 | an answer to keep an entry changes nothing in the map but its mark |
| `ExpiryMap.PinnedStays` | cc/core/common/auto_expiry_concurrent_map/src/auto_expiry_concurrent_map.h:308-331 | in every continuation a pinned entry keeps its place and its record as long as it is not unpinned and its key not erased by a client, if the collector was not dealing with an erased record of that key |
| `ExpiryLaws.PinHolds` | cc/core/common/auto_expiry_concurrent_map/src/auto_expiry_concurrent_map.h:308-325 | pinning an entry brings that about, in every continuation |
| `ExpiryLaws.ExtendHolds` | cc/core/common/auto_expiry_concurrent_map/src/auto_expiry_concurrent_map.h:76-94 | extending an entry makes it safe for a lifetime |
| `ExpiryLaws.SafeStays` | cc/core/common/auto_expiry_concurrent_map/src/auto_expiry_concurrent_map.h:397-453 | in every run an entry that is pinned or has not expired survives every step except its erasure and an answer about an erased record |
| `ExpiryMap.WithheldWhileMarked` | cc/core/common/auto_expiry_concurrent_map/src/auto_expiry_concurrent_map.h:228-270 | in every run, an entry is withheld from clients of a blocking map exactly while an answer about it is to come |
| `ExpiryLaws.AskedOnce` | cc/core/common/auto_expiry_concurrent_map/src/auto_expiry_concurrent_map.h:417-437 | in every run a callback is called only for a marked, evictable and expired record, and not twice in a round; only one that was called is answered |
| `ExpiryLaws.RoundBegins` | cc/core/common/auto_expiry_concurrent_map/src/auto_expiry_concurrent_map.h:385-400 | a round visits every key in the map at its beginning before its marking ends, in every continuation |
| `ExpiryLaws.NeverStalls` | cc/core/common/auto_expiry_concurrent_map/src/auto_expiry_concurrent_map.h:357-474 | in every run in which the executor takes what it is given, as long as the map is not stopped, exactly one round is scheduled, under way or being rescheduled |
| `ExpiryLaws.RoundEnds` | cc/core/common/auto_expiry_concurrent_map/src/auto_expiry_concurrent_map.h:385-474 | from every state the round under way can be brought to its end by the collector and the answers alone |
| `ExpiryLaws.ExpiredCollected` | cc/core/common/auto_expiry_concurrent_map/src/auto_expiry_concurrent_map.h:385-474 | if a round is scheduled, an evictable, expired entry is asked about in it; it goes if the answer is to remove it and stays if not |
| `ExpiryLaws.StopHolds` | cc/core/common/auto_expiry_concurrent_map/src/auto_expiry_concurrent_map.h:164-170 | once a stop has cleared the flag no round begins, in any continuation, but one that was scheduled |
| `ExpiryLaws.StopSucceeds` | cc/core/common/auto_expiry_concurrent_map/src/auto_expiry_concurrent_map.h:164-197 | a stop can always succeed once the round's answers are in |
| `ExpiryMap.StopIsFinal` | cc/core/common/auto_expiry_concurrent_map/src/auto_expiry_concurrent_map.h:164-197 | after a stop that succeeded no round runs, in any continuation |
| `PendingCalls.StepKeeps` | cc/core/http2_client/src/http_connection.cc:200-397 | every step of callers, handlers, connection errors and stop keeps the calls accounted for and the cancellations' progress right |
| `PendingCalls.FinishedOnceNoneLost` | cc/core/http2_client/src/http_connection.cc:254-397 | in every run each inserted call is pending, claimed or finished, and only one of these, and none is finished twice; `PendingCalls.FateExact` says which |
| `PendingCalls.FateExact` | cc/core/http2_client/src/http_connection.cc:200-397 | in every run a call is pending exactly if it was inserted and neither its handler, a connection error nor a stop has got to it, and finished exactly if whoever got to it first has finished it; until then it can |
| `PendingCalls.HandlerFinishes` | cc/core/http2_client/src/http_connection.cc:362-397 | the handler of a pending call claims it and can finish it |
| `PendingCalls.ErrorCancels` | cc/core/http2_client/src/http_connection.cc:186-238 | every call there is when a connection error cancels is claimed or finished when that is through, in every continuation |
| `PendingCalls.StopCancels` | cc/core/http2_client/src/http_connection.cc:141-175 | so is every call there is when a stop cancels, by the time it returns |
| `PendingCalls.StopReturns` | cc/core/http2_client/src/http_connection.cc:162-167 | a stop that cancels comes to its end |
| `PendingCalls.GateCloses` | cc/core/http2_client/src/http_connection.cc:254-269 | once the connection is lost or stopped, no more calls come in, in any continuation without a new one, than there are callers past their check |
| `PendingCalls.ThreadGone` | cc/core/http2_client/src/http_connection.cc:129-160 | once the I/O thread has ended or died no handler runs, in any continuation without a further run |
| `PendingCalls.CancelLeavesNone` | cc/core/http2_client/src/http_connection.cc:200-238 | in every run, when a connection error's cancellation is through, every pending call was inserted after it began |
| `PendingCalls.StopLeavesOnlyLate` | cc/core/http2_client/src/http_connection.cc:141-175 | in every run, when a stop's cancellation is through, the pending calls are exactly those inserted after it began, and all earlier ones are claimed or finished |
| `PendingCalls.OrphanForever` | cc/core/http2_client/src/http_connection.cc:151-167 | such a call stays pending and unfinished in every continuation in which the connection is neither run nor stopped again |
| `PendingCalls.NextStopClaims` | cc/core/http2_client/src/http_connection.cc:200-238 | another stop finds the call and claims it |
| `PendingCalls.Orphan` | cc/core/http2_client/src/http_connection.cc:256-268 | a run with such a call |
| `LruCache.TouchLaw` | cc/core/common/lru_cache/src/lru_cache.h:98-120 | moving a key to the front of the list and cutting it to the capacity gives the most recent distinct keys of the extended history |
| `LruCache.EraseAt` | cc/core/common/lru_cache/src/lru_cache.h:110-115 | erasing by iterator removes exactly the node it points to |
| `LruCache.InternalSet` | cc/core/common/lru_cache/src/lru_cache.h:98-120 | the key is in front, the stalest one is gone if the cache was full, every iterator points to its own node, all other values stay |
| `LruCache.LruCache.constructor` | cc/core/common/lru_cache/src/lru_cache.h:36-36 | an empty cache that agrees with the empty history |
| `LruCache.LruCache.Set` | cc/core/common/lru_cache/src/lru_cache.h:38-42 | list and map agree with the history extended by the setting |
| `LruCache.LruCache.Get` | cc/core/common/lru_cache/src/lru_cache.h:44-52 | returns the value last set and agrees with the history extended by the access |
| `LruCache.LruCache.Contains` | cc/core/common/lru_cache/src/lru_cache.h:61-64 | true if and only if the key is one of the `capacity` most recently accessed |
| `LruCache.LruCache.Clear` | cc/core/common/lru_cache/src/lru_cache.h:66-70 | agrees with the empty history |

## Left out

- ProxyBuffer.AppendNewBlock: always one block, the only count used, and the allocation does not fail.
- ProxyBuffer.Buffer.CopyIn: requires a byte to copy or a block to be there, because committing nothing to an empty buffer trips an assertion of the code.
- ProxyBuffer.Buffer.Deposit: stands for the kernel's scattered read and for the copy loop alike; that the producer writes nowhere else is an assumption.
- ProxyBridge.ProxyBridge.constructor: the two freelists have blocks of one size, as they are of one type.
- BlockPool.NewLaw: sequential histories only; the compare-and-swap loop of the freelist is not modelled.
- Socks5.Step: the response and bind callbacks are set, as the bridge sets them; the connect and address callbacks may be missing.
- Socks5Client.RecvAll: the outcomes of the system calls are a finite list, so an endless series of interruptions is not a run.
- ProxyBridge.ProxyBridge.ConnectHandler: cancelling the wait for client errors while an inbound connection is awaited is not modelled.
- WasmSerializer.WriteCustomString: the memory is at most 4 GiB, which a WASM memory is; in a larger one the 32-bit pointers would be cut off.
- WasmDeserializer.ReadCustomString: pointers within eight of the largest `size_t` are excluded; the module's own pointers have 32 bits.
- WasmArguments.PlaceArguments: the conversion from V8 values is left out; an argument that is no number, string or list of strings is `Unsupported`.
- TimedExecutor.NeverMissed: the lag between reading the clock and going to sleep is bounded by a parameter; the clock stays ten years below the largest timestamp.
- TimedExecutor.RunAgain: the executor is run again only when its former worker has gone; two workers at once are not modelled, nor is the wait of a stop for the worker.
- PendingCalls.FateExact: the result a call is finished with, to retry or to fail, is not modelled.
- PendingCalls.StopLeavesOnlyLate: stops of one connection do not overlap, and it is run again only after a stop, as the pool does.
- ExpiryMap.StopIsFinal: the timeout after which a stop gives up is not modelled.
- LruCache.LruCache.Get: only on present keys, because the code follows an invalid iterator otherwise; likewise the capacity is positive.
- The executor without timestamps, the pool of executors and its round robin: easier than the timed one.
- The capacity hint computed before reserving, memory alignment, logging and debug counters.
- The rest of the preloaded library, the proxy's sockets, acceptors and process handling, HTTP status mapping: plumbing and tables.
