# gobjfs in Dafny

A verified model of the core of gobjfs: the MessagePack codec it ships, the read protocol built
on it, the I/O executor behind that protocol, and its statistics.

- **Codec.** `detail::context::execute` is a byte-driven machine with an explicit stack of
  half-built containers. It refines a recursive decoder, and that decoder accepts exactly the
  language of the MessagePack formats within the configured limits. The machine resumes at any byte
  boundary and inverts the packer on arbitrarily nested objects. `unpacker` wraps it in a growing,
  rewinding, reference-counted buffer: however a stream is cut, what comes out is what one-shot
  decoding of the whole stream gives, and no buffer is reused or freed while an object still points
  into it.
- **Zone and clone.** The bump allocator hands out disjoint, aligned blocks; `clone` never needs
  more than the one chunk whose size it computed.
- **Read protocol.** Clients admit requests by credit, the transport loses and reorders messages,
  workers and I/O threads pass requests on, connections go away. Every response completes the
  request it is for, once, with the right result; every request has one owner; client data is
  deleted once, when it is due.
- **Executor.** The retry loop over `io_submit` and the shared counters under all interleavings,
  with the exact drift where the code does not conserve slots.
- **Statistics.** Welford's update and merging, over the reals.

Objects that the source updates in place are classes whose methods are proved against functions
on values; the theorems about every run and every input are lemmas about those functions.
Concurrent parts are state machines whose steps are the source's critical sections and callbacks,
and the classes `XioClient` and `XioServer` take exactly those steps. `dafny verify
dfyconfig.toml` checks everything.

## Files

| file | contents |
|---|---|
| `bytes`, `objects` | big-endian fields, the object model, float widening |
| `decoder`, `limits`, `formats` | reference decoder; which objects fit; the formats as a relation, and that the decoder accepts exactly these |
| `machine`, `refinement` | stack machine and its equivalence with the decoder |
| `references`, `context` | zero-copy pointers; the parser object |
| `packer`, `roundtrip`, `streams` | the packer object, round trips, sequences of messages |
| `lifetime`, `sizing`, `unpacker` | buffer ownership, growth, the streaming parser |
| `zone`, `allocator`, `clone`, `storage`, `cloner` | the zone on values and as an object, deep copies |
| `message` | one-shot unpacking and `NetworkXioMsg` |
| `client`, `admission`, `transport` | credits and requests of a client, when it can still admit, the client object |
| `server`, `handler` | ownership of requests and client data, on values and as an object |
| `session` | clients, transport and server together |
| `submission`, `executor`, `pressure` | one `ProcessRequestQueue` call; the executor under interleaving; runs that attain its bounds |
| `stats` | `StatsCounter` |

## Where the code departs from the obvious statement

- `zone::allocate_align` rounds the pointer down after `allocate_expand`, so a new chunk must have
  an aligned payload (`Zones.AllocateAlignKeepsIff`).
- Copying an EXT adds 1 to its size in 32 bits (`Cloning.MaxExtIsLost`, `Storage.CloneStoresIff`).
- A NEGATIVE_INTEGER that holds a number >= 0 comes back POSITIVE (`RoundTrips.NormalIffCanonical`).
- `operator==` compares one byte less than an EXT holds; equality here is structural.
- A timed-out admission and an undecodable reply never return their credit, and a caller that
  waits has taken its credit already, so that callers can block each other for good
  (`Admission.AdmitsIff`, `Admission.WaitersStarve`).
- A read of 2^63 bytes or more reports a negative size on success (`Sessions.HugeRead`).
- A partial `io_submit` returns slots of jobs that the kernel holds, and a fatal one post-processes
  its jobs twice (`Submission.SlotsConservedIff`, `Submission.OnceIffNotFatal`, `Executors.DriftIff`);
  a later batch can then be longer than the arrays that hold it (`Pressure.BatchOverruns`).
- A caller woken from a full queue does not look again before it increments
  (`Executors.SizeBounded`, `Pressure.PausedBoundAttained`), and is woken only below the limit above
  which it paused, so never if the limit is 0 (`Executors.NeverWoken`).
- Merging averages `meanSquared_`, which is a sum (`Statistics.MergeSquaresIff`).

## Model

| member | source | states |
|---|---|---|
| `Bytes.LoadStore` | thirdparty/msgpack/include/msgpack/sysdep.h:141-172 | Loading the w big-endian bytes of n gives n, for every width and every n that fits |
| `Bytes.StoreLoad` | thirdparty/msgpack/include/msgpack/sysdep.h:141-172 | Storing what was loaded from any bytes gives the same bytes |
| `Bytes.LoadStoreSigned` | thirdparty/msgpack/include/msgpack/unpack.hpp:426-449 | The same for two's complement: a signed load undoes the store of any value of that width |
| `Bytes.BigEndian` | thirdparty/msgpack/include/msgpack/sysdep.h:141-172 | The first byte is the most significant: its weight is 256 to the number of bytes that follow |
| `Floats.WidenIsExact` | thirdparty/msgpack/include/msgpack/unpack.hpp:248-249 | Every finite single-precision pattern, subnormals included, becomes the double-precision pattern of the same value and sign |
| `Floats.WidenSpecial` | thirdparty/msgpack/include/msgpack/unpack.hpp:248-249 | Infinities stay infinities and NaNs become quiet NaNs, with their sign and payload |
| `Decoder.Decode` | thirdparty/msgpack/include/msgpack/unpack.hpp:600-989 | Reference decoder, recursive descent over the format table: an object takes at least one byte and none beyond the input |
| `Formats.HeadIff` | thirdparty/msgpack/include/msgpack/unpack.hpp:617-985 | For any bytes: a token is read from the first n of them exactly if they are one of the forms that the specification writes out for it, by first byte; 0xc1 and nothing else is a parse error |
| `Formats.ShortAt` | thirdparty/msgpack/include/msgpack/unpack.hpp:617-814 | When the input ends inside a token, what counts as read is nothing, the first byte, or the first byte with the whole length field |
| `Formats.DecodeIff` | thirdparty/msgpack/include/msgpack/unpack.hpp:600-989 | The decoder accepts exactly the language of the formats within the limits: it returns v from the first n bytes if and only if they encode v, each part in any of its forms, and every part of v fits its limit and the nesting its depth |
| `Formats.RefusedIff` | thirdparty/msgpack/include/msgpack/unpack.hpp:302-349 | Any encoding of v, whatever follows it, is refused if and only if v does not fit, with a limit that v breaks, its own size before anything else |
| `Formats.ParseErrorAt` | thirdparty/msgpack/include/msgpack/unpack.hpp:690-699 | A parse error points at a byte 0xc1 where a first byte is expected |
| `Limits.VerdictIff` | thirdparty/msgpack/include/msgpack/unpack.hpp:302-349 | The first broken limit, found in reading order, is none exactly if each string, binary and extension is referenced or within its size, each container within its size and the nesting of non-empty containers within the depth; else it is one that some part breaks |
| `Machine.Push` | thirdparty/msgpack/include/msgpack/unpack.hpp:522-561 | Handing an object to the stack never fails, closes every container it completes, and leaves each frame with exactly declared size minus remaining count elements |
| `Machine.Run` | thirdparty/msgpack/include/msgpack/unpack.hpp:600-989 | The explicit-stack machine on values: it stops within the input, and what it stops in is a well-formed state |
| `Machine.Resume` | thirdparty/msgpack/include/msgpack/unpack.hpp:600-989 | Resumability for every split a + b from every well-formed state: stopping after a and going on with the unread rest of a and b gives the outcome, stack, state and total consumption of one run on a + b; a run that ends inside a ignores b |
| `Refinement.HeadRun` | thirdparty/msgpack/include/msgpack/unpack.hpp:617-985 | On every input the two or three phases of the machine read exactly the one token that the format table describes |
| `Refinement.Simulate` | thirdparty/msgpack/include/msgpack/unpack.hpp:492-579 | From every stack, the machine treats the next object as the recursive decoder does and delivers it to that stack |
| `Refinement.Refines` | thirdparty/msgpack/include/msgpack/unpack.hpp:600-989 | For every input and all limits, the machine returns done, need more, parse error or size overflow exactly when the recursive decoder does, with the same value and offset |
| `References.RefsPointInto` | thirdparty/msgpack/include/msgpack/unpack.hpp:302-349 | Every pointer that zero-copy parsing leaves behind lies inside the consumed input and reads the bytes of its string, binary or extension |
| `References.RefsAreBlobs` | thirdparty/msgpack/include/msgpack/unpack.hpp:302-349 | The bytes left in the input buffer by the finished object or the open containers are, in order, exactly the contents of the pointers made |
| `References.RefsUseInput` | thirdparty/msgpack/include/msgpack/unpack.hpp:302-349 | No pointer is made without consuming input |
| `Contexts.Context.constructor` | thirdparty/msgpack/include/msgpack/unpack.hpp:453-458 | A new context is in the initial state with nothing referenced |
| `Contexts.Context.Init` | thirdparty/msgpack/include/msgpack/unpack.hpp:460-466 | init() restores the initial state and keeps the referenced flag |
| `Contexts.Context.PushItem` | thirdparty/msgpack/include/msgpack/unpack.hpp:522-561 | The loop over the stack does what Machine.Push does |
| `Contexts.Context.PushProc` | thirdparty/msgpack/include/msgpack/unpack.hpp:563-579 | Object delivered: the cursor moves past it, or the run is finished |
| `Contexts.Context.PushBlob` | thirdparty/msgpack/include/msgpack/unpack.hpp:302-349 | String, binary or extension: the limit check, the reference or copy, and its delivery |
| `Contexts.Context.PushAggregate` | thirdparty/msgpack/include/msgpack/unpack.hpp:493-520 | Container header: its limit checks, a new frame, or the delivery of an empty container |
| `Contexts.Context.Header` | thirdparty/msgpack/include/msgpack/unpack.hpp:617-699 | The first-byte block has exactly the effect of its lexeme |
| `Contexts.Context.Length` | thirdparty/msgpack/include/msgpack/unpack.hpp:815-941 | A length field switches to the body, or delivers an empty one |
| `Contexts.Context.Trail` | thirdparty/msgpack/include/msgpack/unpack.hpp:705-984 | The switch over the state has exactly the effect of the lexeme that the field or body completes |
| `Contexts.Context.HeaderTurn` | thirdparty/msgpack/include/msgpack/unpack.hpp:617-700 | One header phase brings the parser further on the run that was promised at the start, or ends it as promised |
| `Contexts.Context.TrailTurn` | thirdparty/msgpack/include/msgpack/unpack.hpp:701-984 | The same for a phase that reads a field or body |
| `Contexts.Context.Execute` | thirdparty/msgpack/include/msgpack/unpack.hpp:600-989 | The whole loop, also when it resumes inside a token: result, cursor, stack and references are those of Machine.Run; it terminates although a turn may leave the cursor in place |
| `Packing.Packer.PackUint8` | thirdparty/msgpack/include/msgpack/pack.hpp:844-855 | Appends the one canonical encoding of the value, the same for every packer that can hold it |
| `Packing.Packer.PackUint16` | thirdparty/msgpack/include/msgpack/pack.hpp:859-875 | Appends the one canonical encoding of the value, the same for every packer that can hold it |
| `Packing.Packer.PackUint32` | thirdparty/msgpack/include/msgpack/pack.hpp:879-904 | Appends the one canonical encoding of the value, the same for every packer that can hold it |
| `Packing.Packer.PackUint64` | thirdparty/msgpack/include/msgpack/pack.hpp:908-938 | Appends the one canonical encoding of the value, the same for every packer that can hold it |
| `Packing.Packer.PackInt8` | thirdparty/msgpack/include/msgpack/pack.hpp:942-953 | Appends the one canonical encoding of the value, the same for every packer that can hold it |
| `Packing.Packer.PackInt16` | thirdparty/msgpack/include/msgpack/pack.hpp:957-986 | Appends the one canonical encoding of the value, the same for every packer that can hold it |
| `Packing.Packer.PackInt32` | thirdparty/msgpack/include/msgpack/pack.hpp:990-1029 | Appends the one canonical encoding of the value, the same for every packer that can hold it |
| `Packing.Packer.PackInt64` | thirdparty/msgpack/include/msgpack/pack.hpp:1033-1090 | Appends the one canonical encoding of the value, the same for every packer that can hold it |
| `Packing.Packer.PackStr` | thirdparty/msgpack/include/msgpack/pack.hpp:693-713 | Appends the shortest string header for the length |
| `Packing.Packer.PackBin` | thirdparty/msgpack/include/msgpack/pack.hpp:751-767 | Appends the shortest binary header for the length |
| `Packing.Packer.PackExt` | thirdparty/msgpack/include/msgpack/pack.hpp:777-833 | Appends the extension header: the fixed forms for 1, 2, 4, 8 and 16 bytes, else the shortest; a length from 2^32 on is truncated to 32 bits |
| `Packing.Packer.PackArray` | thirdparty/msgpack/include/msgpack/pack.hpp:656-671 | Appends the shortest array header |
| `Packing.Packer.PackMap` | thirdparty/msgpack/include/msgpack/pack.hpp:674-690 | Appends the shortest map header |
| `Packing.Packer.PackObject` | thirdparty/msgpack/include/msgpack/object.hpp:207-274 | Appends the encoding of a whole nested object |
| `Packing.Packer.PackItems` | thirdparty/msgpack/include/msgpack/object.hpp:251-258 | The loop over array elements appends their encodings in order |
| `Packing.Packer.PackPairs` | thirdparty/msgpack/include/msgpack/object.hpp:260-268 | The loop over map pairs appends key and value encodings in order |
| `RoundTrips.ReadInt` | thirdparty/msgpack/include/msgpack/pack.hpp:842-1090 | The canonical integer encoding, whatever follows it, reads as that integer and nothing more |
| `RoundTrips.IntFamily` | thirdparty/msgpack/include/msgpack/pack.hpp:842-1090 | Numbers from 0 on are written as fixint or uint, negative ones as negative fixint or int |
| `RoundTrips.PackedEncodes` | thirdparty/msgpack/include/msgpack/object.hpp:207-274 | What the packer writes is an encoding of the object in normal form |
| `RoundTrips.RoundTrip` | thirdparty/msgpack/include/msgpack/object.hpp:207-274 | For every object that the struct can hold, at every nesting, unpacking its packed bytes followed by anything returns its normal form and consumes exactly those bytes if and only if its sizes and nesting fit the limits, and else reports a limit that some part of it breaks |
| `RoundTrips.NormalIffCanonical` | thirdparty/msgpack/include/msgpack/unpack.hpp:232-247 | The object that comes back is the same object if and only if no NEGATIVE_INTEGER in it holds a number that is not negative |
| `RoundTrips.CutAnywhere` | thirdparty/msgpack/include/msgpack/unpack.hpp:600-989 | Packed bytes cut in two anywhere: the parser asks for more, resumes, and finishes with the object at the last byte |
| `RoundTrips.IntBytesShortest` | thirdparty/msgpack/include/msgpack/pack.hpp:842-1090 | No shorter byte string decodes to the same integer |
| `RoundTrips.PackedShortest` | thirdparty/msgpack/include/msgpack/object.hpp:207-274 | No encoding of an object, in whatever forms, is shorter than its packed bytes, except that a float 32 would save four bytes each |
| `Streams.DecodeExtends` | thirdparty/msgpack/include/msgpack/unpack.hpp:1485-1524 | What was decoded, or failed to, does not change when bytes are added behind it |
| `Streams.EmittedIsPrefix` | thirdparty/msgpack/include/msgpack/unpack.hpp:1350-1370 | The objects taken out so far, followed by one-shot decoding of the rest, are one-shot decoding of the whole stream |
| `Streams.MessagesStop` | thirdparty/msgpack/include/msgpack/unpack.hpp:1350-1370 | After an error nothing that follows changes what comes out |
| `Streams.PackedStream` | thirdparty/msgpack/include/msgpack/object.hpp:207-274 | A concatenation of packed objects decodes to the same list of objects |
| `Lifetime.FeedKeeps` | thirdparty/msgpack/include/msgpack/unpack.hpp:1334-1348 | Writing at buffer() and buffer_consumed keeps the buffer invariant: counts equal holders, and every pointer of an object in progress or handed out still reads its bytes |
| `Lifetime.RewindKeeps` | thirdparty/msgpack/include/msgpack/unpack.hpp:1264-1272 | Rewinding keeps the invariant: at count 1 and not referenced, nobody points into the buffer |
| `Lifetime.GrowKeeps` | thirdparty/msgpack/include/msgpack/unpack.hpp:1274-1292 | realloc keeps the invariant even when it moves the buffer: at COUNTER_SIZE the count is 1 and nothing is referenced |
| `Lifetime.MoveKeeps` | thirdparty/msgpack/include/msgpack/unpack.hpp:1293-1331 | Moving the unparsed bytes to a new buffer keeps the invariant and those bytes; the old buffer lives as long as an object needs it |
| `Lifetime.ParseKeeps` | thirdparty/msgpack/include/msgpack/unpack.hpp:1396-1404 | Parsing on keeps the invariant |
| `Lifetime.HandOutKeeps` | thirdparty/msgpack/include/msgpack/unpack.hpp:1411-1444 | release_zone and flush_zone keep the invariant: the zone handed out holds the buffer its object points into |
| `Lifetime.DropKeeps` | thirdparty/msgpack/include/msgpack/unpack.hpp:379-391 | Destroying an object keeps the invariant: buffers are freed exactly when their last holder goes |
| `Lifetime.RunKeeps` | thirdparty/msgpack/include/msgpack/unpack.hpp:1262-1444 | In every run of the unpacker: counts equal holders, no buffer is rewound, moved or freed while an object in progress or handed out points into it, and COUNTER_SIZE implies count 1 and not referenced |
| `Lifetime.HandleReads` | thirdparty/msgpack/include/msgpack/unpack.hpp:1411-1444 | Over every run of the unpacker that does not destroy it, an object handed out is still there and every pointer of it reads the bytes that were parsed |
| `Lifetime.CloseReads` | thirdparty/msgpack/include/msgpack/unpack.hpp:1249-1253 | ~unpacker: afterwards the objects handed out are the only holders, each buffer is there and counts them as long as one is left, and every pointer of theirs still reads; with none left no buffer is |
| `Sizing.GrowthDoubles` | thirdparty/msgpack/include/msgpack/unpack.hpp:1276-1284 | The new size is the old one doubled some number of times; it is the needed size instead only when doubling gets stuck below it, by wrapping in size_t or at 0 |
| `Sizing.GrowSize` | thirdparty/msgpack/include/msgpack/detail/cpp11_zone.hpp:276-302 | The growth loop computes that size, at least what is needed |
| `Sizing.RoomIff` | thirdparty/msgpack/include/msgpack/unpack.hpp:1274-1331 | The grown buffer has the room asked for if and only if size plus m_used does not wrap in size_t |
| `Sizing.AlignUpIsNext` | thirdparty/msgpack/include/msgpack/detail/cpp11_zone.hpp:364-368 | Rounding up gives the first multiple at or after the address |
| `Sizing.AlignDownIsPrevious` | thirdparty/msgpack/include/msgpack/detail/cpp11_zone.hpp:246-261 | Rounding down leaves multiples alone and moves everything else below itself |
| `Unpackers.Unpacker.constructor` | thirdparty/msgpack/include/msgpack/unpack.hpp:1196-1226 | A new unpacker is valid, with nothing fed and nothing handed out, and a buffer of the size asked for or COUNTER_SIZE if that is larger |
| `Unpackers.Unpacker.Feed` | thirdparty/msgpack/include/msgpack/unpack.hpp:1334-1348 | Appending bytes extends the stream by exactly those bytes and keeps everything else |
| `Unpackers.Unpacker.ReserveBuffer` | thirdparty/msgpack/include/msgpack/unpack.hpp:1256-1260 | Afterwards there is room for size bytes; the unread bytes, the message and every object are as before |
| `Unpackers.Unpacker.Expand` | thirdparty/msgpack/include/msgpack/unpack.hpp:1262-1332 | The same for each of the three branches and their combination; a buffer that can be rewound and then has the room is not reallocated |
| `Unpackers.Unpacker.RewindBuffer` | thirdparty/msgpack/include/msgpack/unpack.hpp:1264-1272 | First branch: the buffer is reused from its start, with all of its size |
| `Unpackers.Unpacker.ReallocBuffer` | thirdparty/msgpack/include/msgpack/unpack.hpp:1274-1292 | Second branch: the buffer grows in place or moves, with its bytes, to the size that doubling from twice the old one gives |
| `Unpackers.Unpacker.MoveBuffer` | thirdparty/msgpack/include/msgpack/unpack.hpp:1293-1331 | Third branch: the unread bytes are at the start of a new buffer, whose size doubling from the initial one gives |
| `Unpackers.Unpacker.Destroy` | thirdparty/msgpack/include/msgpack/unpack.hpp:379-391 | Destroying an object handed out runs its finalizers and leaves every other object readable |
| `Unpackers.Unpacker.RunFinalizers` | thirdparty/msgpack/include/msgpack/detail/cpp11_zone.hpp:53-60 | Finalizers run last pushed first; each drops one count |
| `Unpackers.Unpacker.ExecuteImp` | thirdparty/msgpack/include/msgpack/unpack.hpp:1396-1404 | execute_imp continues the run of the current message and advances m_off and m_parsed together; an exception leaves m_off alone |
| `Unpackers.Unpacker.ExecuteMessage` | thirdparty/msgpack/include/msgpack/unpack.hpp:1396-1404 | One call, seen from the start of the message, is one-shot parsing of what has arrived of it |
| `Unpackers.Unpacker.DecodeMessage` | thirdparty/msgpack/include/msgpack/unpack.hpp:1350-1357 | The outcome of that call against the recursive decoder on what has arrived of the message: needs more, complete, parse error or overflow, each exactly when the decoder says so |
| `Unpackers.Unpacker.HandOut` | thirdparty/msgpack/include/msgpack/unpack.hpp:1411-1444 | The object leaves with the pointers and finalizers that keep its bytes alive |
| `Unpackers.Unpacker.Next` | thirdparty/msgpack/include/msgpack/unpack.hpp:1350-1370 | Returns exactly the object that one-shot decoding finds at the start of the current message, false exactly when one-shot decoding needs more, else its error; the object reads its referenced bytes; after parse_error the buffer invariant still holds, and size_overflow leaves the buffers as they were |
| `Unpackers.Unpacker.Drain` | thirdparty/msgpack/include/msgpack/unpack.hpp:1350-1370 | Repeated until false, next() gives exactly the list of repeated one-shot decoding at successive offsets |
| `Unpackers.Unpacker.Receive` | thirdparty/msgpack/include/msgpack/unpack.hpp:1262-1404 | Streaming equals one-shot for every cutting into pieces, across rewind, realloc and copy to a new buffer: after each piece the objects handed out are those of one-shot decoding of everything fed |
| `Unpackers.Unpacker.ReceiveAll` | thirdparty/msgpack/include/msgpack/unpack.hpp:1262-1404 | The documented loop, as one statement: for every stream and every cutting, the objects handed out and the error are those of repeated one-shot decoding of the whole stream |
| `Zones.AllocateAlignKeeps` | thirdparty/msgpack/include/msgpack/detail/cpp11_zone.hpp:246-261 | The block is aligned, inside an owned chunk and disjoint from every live block; used plus free stays the head payload |
| `Zones.AllocateAlignKeepsIff` | thirdparty/msgpack/include/msgpack/detail/cpp11_zone.hpp:258-260 | When a new chunk is needed, that holds if and only if its payload is aligned, since the code then rounds down |
| `Zones.AllocateNoAlignKeeps` | thirdparty/msgpack/include/msgpack/detail/cpp11_zone.hpp:263-274 | The same for unaligned allocation |
| `Zones.UndoKeeps` | thirdparty/msgpack/include/msgpack/detail/cpp11_zone.hpp:338-342 | Undoing the last allocation removes that block and no other |
| `Zones.UndoLast` | thirdparty/msgpack/include/msgpack/detail/cpp11_zone.hpp:338-342 | Undoing keeps the invariant whenever the bytes given back are those of the newest block |
| `Zones.ClearKeeps` | thirdparty/msgpack/include/msgpack/detail/cpp11_zone.hpp:147-163 | Clearing leaves the oldest chunk, empty |
| `Zones.RunKeeps` | thirdparty/msgpack/include/msgpack/detail/cpp11_zone.hpp:246-342 | Over every sequence of aligned, unaligned and undone allocations and clears: every live block has the alignment asked for and lies inside an owned chunk, live blocks are pairwise disjoint, used plus free is the head payload |
| `Allocators.FinalizerArray.Push` | thirdparty/msgpack/include/msgpack/detail/cpp11_zone.hpp:65-78 | Appends one finalizer, growing the array when full |
| `Allocators.FinalizerArray.PushExpand` | thirdparty/msgpack/include/msgpack/detail/cpp11_zone.hpp:79-99 | The array grows to 4 entries, then doubles; the finalizers keep their order |
| `Allocators.FinalizerArray.Call` | thirdparty/msgpack/include/msgpack/detail/cpp11_zone.hpp:53-56 | Runs every finalizer once, last pushed first |
| `Allocators.FinalizerArray.Clear` | thirdparty/msgpack/include/msgpack/detail/cpp11_zone.hpp:61-64 | Runs them and forgets them |
| `Allocators.Allocator.AllocateExpand` | thirdparty/msgpack/include/msgpack/detail/cpp11_zone.hpp:276-302 | A new head chunk of the grown size, with the request at its start |
| `Allocators.Allocator.AllocateAlign` | thirdparty/msgpack/include/msgpack/detail/cpp11_zone.hpp:246-261 | Does what Zones.AllocateAlign says and keeps the zone invariant |
| `Allocators.Allocator.AllocateNoAlign` | thirdparty/msgpack/include/msgpack/detail/cpp11_zone.hpp:263-274 | The same without alignment |
| `Allocators.Allocator.Allocate` | thirdparty/msgpack/include/msgpack/detail/cpp11_zone.hpp:345-362 | A typed block is registered with its destructor, or when construction or registration throws leaves no trace |
| `Allocators.Allocator.UndoAllocate` | thirdparty/msgpack/include/msgpack/detail/cpp11_zone.hpp:338-342 | Used plus free bytes and the chunks stay, every block but the newest stays live, and the zone stays valid when the bytes given back belong to that block |
| `Allocators.Allocator.Clear` | thirdparty/msgpack/include/msgpack/detail/cpp11_zone.hpp:315-319 | Runs the finalizers in reverse order and empties the zone |
| `Cloning.CopyObjectOk` | thirdparty/msgpack/include/msgpack/object.hpp:276-347 | A deep copy takes at most its precomputed size, writes only fresh storage, and reads back as the object |
| `Cloning.CloneIsFaithful` | thirdparty/msgpack/include/msgpack/object.hpp:112-149 | In one chunk of aligned_zone_size bytes the copy never asks for another chunk and uses it up, reads back as the object, and lies in pairwise disjoint blocks inside the chunk |
| `Cloning.MaxExtIsLost` | thirdparty/msgpack/include/msgpack/object.hpp:306-312 | The exception: of an EXT with size 0xffffffff nothing is copied, since size + 1 wraps in 32 bits |
| `Storage.CloneStoresIff` | thirdparty/msgpack/include/msgpack/object.hpp:276-347 | For every object the copy gets all the storage it needs if and only if no EXT in it has that size |
| `Storage.TakeIsAllocate` | thirdparty/msgpack/include/msgpack/detail/cpp11_zone.hpp:246-261 | The arena in which clone copies is the zone: it runs out exactly when allocate_align would need a new chunk, and else returns the same address and leaves the same pointer |
| `Cloners.AlignedZoneSize` | thirdparty/msgpack/include/msgpack/object.hpp:112-142 | The recursive loops compute the storage size |
| `Cloners.Cloner.Copy` | thirdparty/msgpack/include/msgpack/object.hpp:276-347 | object_with_zone with its loops does what CopyObject says |
| `Cloners.Cloner.CopyAll` | thirdparty/msgpack/include/msgpack/object.hpp:314-325 | The element loop, writing each copy into its slot |
| `Cloners.Cloner.CopyAllPairs` | thirdparty/msgpack/include/msgpack/object.hpp:327-340 | The pair loop |
| `Cloners.Clone` | thirdparty/msgpack/include/msgpack/object.hpp:144-149 | Returns the object itself when it needs no storage, else a copy that reads back as the object, leaving other memory alone |
| `OneShot.UnpackImp` | thirdparty/msgpack/include/msgpack/unpack.hpp:1485-1524 | Success, extra bytes, continue, parse error or overflow, with the updated offset, exactly as the reference decoder says |
| `Wire.FieldRoundTrip` | thirdparty/msgpack/include/msgpack/adaptor/int.hpp:32-62 | The range-checked conversion of each packed field gives the field back |
| `Wire.FieldIff` | thirdparty/msgpack/include/msgpack/adaptor/int.hpp:32-62 | convert takes exactly the objects whose value is in the range of the field, signed or not, and keeps the value; a file name from strings and binaries alike |
| `Wire.XioMsg.PackMsg` | src/networkxio/NetworkXioProtocol.h:79-83 | Writes the encoding of the eight-element array, or fails exactly when the file name does not fit 32 bits |
| `Wire.XioMsg.PackFields` | thirdparty/msgpack/include/msgpack/adaptor/detail/cpp11_define_array.hpp:99-102 | The recursion over N appends the fields in order |
| `Wire.XioMsg.PackField` | thirdparty/msgpack/include/msgpack/adaptor/detail/cpp11_define_array.hpp:99-102 | One field, by its type |
| `Wire.XioMsg.ConvertField` | thirdparty/msgpack/include/msgpack/adaptor/detail/cpp11_define_array.hpp:103-108 | Assigns one field or throws, and touches no other |
| `Wire.XioMsg.UnpackFields` | thirdparty/msgpack/include/msgpack/adaptor/detail/cpp11_define_array.hpp:103-108 | The elements that are there go to the fields in order up to the first of a wrong type; all other fields keep their values |
| `Wire.XioMsg.UnpackMsg` | src/networkxio/NetworkXioProtocol.h:85-97 | For any bytes: which error, and which fields change; a k-element array of the right types sets exactly the first min(k, 8) fields |
| `Wire.ParseIff` | src/networkxio/NetworkXioProtocol.h:85-97 | For any bytes: unpack_msg accepts them and then holds m if and only if they start with some encoding of an array within the limits whose elements give m its fields, missing ones kept |
| `Wire.Restores` | src/networkxio/NetworkXioProtocol.h:79-97 | The packed form of any message, whatever follows it, unpacks into that message whatever the receiver held |
| `Wire.ParseTyped` | thirdparty/msgpack/include/msgpack/adaptor/int.hpp:32-62 | Whatever the bytes, every field of an accepted message is in the range of its type |
| `Wire.Relay` | src/networkxio/NetworkXioProtocol.h:79-97 | pack_msg then unpack_msg copies all eight fields |
| `Clients.CreditKeeps` | src/networkxio/NetworkXioClient.cpp:438-456 | Each step keeps: counter, credits held and timed-out admissions add up to the depth |
| `Clients.AdmissionsKeep` | src/networkxio/NetworkXioClient.cpp:438-448 | Admitted requests never exceed the depth, and grow only while the counter is not negative |
| `Clients.OnceKeeps` | src/networkxio/NetworkXioClient.cpp:343-415 | No step tells a caller twice |
| `Clients.RunKeeps` | src/networkxio/NetworkXioClient.cpp:438-456 | Over every interleaving of any number of callers: credit accounting, the admission bound, each queued request once in the queue, each caller told at most once |
| `Admission.Starved` | src/networkxio/NetworkXioClient.cpp:438-456 | Once callers that wait and credits lost for good leave no room, no later step of any run admits a request |
| `Admission.AdmitsIff` | src/networkxio/NetworkXioClient.cpp:438-456 | From every reachable state: some continuation admits a request if and only if waiting callers and credits lost for good are fewer than the depth, or as many with somebody waiting |
| `Admission.WaitersStarve` | src/networkxio/NetworkXioClient.cpp:440-446 | With depth 1, one request admitted and any two or more callers waiting, nothing is lost and yet nobody is ever admitted again |
| `XioClients.XioClient.ReqQueueWaitUntil` | src/networkxio/NetworkXioClient.cpp:438-441 | Takes one credit, and admits at once exactly when at least one was left |
| `XioClients.XioClient.LookAgain` | src/networkxio/NetworkXioClient.cpp:442-446 | Woken: admitted if the counter is not negative, gives up without getting its credit back if the time is over, else sleeps on |
| `XioClients.XioClient.PushRequest` | src/networkxio/NetworkXioClient.cpp:313-317 | The request, not queued before, is last in the queue behind the others; admissions and the client invariant are kept |
| `XioClients.XioClient.ReqQueueRelease` | src/networkxio/NetworkXioClient.cpp:450-456 | The counter is one higher; the request held its credit and no longer does; a waiting caller may pass exactly if the counter was at least -1; the client invariant is kept |
| `XioClients.XioClient.CompleteRequest` | src/networkxio/NetworkXioClient.cpp:525-527 | Its caller, not told before, is told this result and error, and nobody else is told; nobody is told twice; the client invariant is kept |
| `XioClients.XioClient.OnResponse` | src/networkxio/NetworkXioClient.cpp:512-539 | Tells the caller of the request the result and error of the reply, returns one credit and deletes the request, in this order, and touches nothing else; on an undecodable header it leaves the request and its credit behind |
| `XioClients.XioClient.OnMsgError` | src/networkxio/NetworkXioClient.cpp:379-415 | The same with result -1 and error EIO |
| `XioClients.XioClient.SendNext` | src/networkxio/NetworkXioClient.cpp:350-357 | One turn of the sending loop: the oldest request is sent, or its caller is told -1 and EIO, one credit returned and the request deleted |
| `XioClients.XioClient.SendAll` | src/networkxio/NetworkXioClient.cpp:349-358 | The loop is a run of client steps and empties the queue |
| `XioClients.DrainSends` | src/networkxio/NetworkXioClient.cpp:349-358 | Exactly the requests the transport took are sent, the others deleted, all others untouched |
| `XioClients.DrainTells` | src/networkxio/NetworkXioClient.cpp:349-358 | Each refused caller is told -1 and EIO once, in queue order, and its credit is back |
| `Servers.StepKeeps` | src/networkxio/NetworkXioServer.cpp:307-470 | Every step keeps ownership, reference counts and client data lifetime |
| `Servers.RunKeeps` | src/networkxio/NetworkXioServer.cpp:307-470 | They hold in every state of every run |
| `Servers.OnePlace` | src/networkxio/NetworkXioWorkQueue.h:68-100 | Every allocated request is in exactly one place, once: inflight queue, a worker, the I/O executor, finished queue, or the done list of its own client; a freed one is nowhere |
| `Servers.SecondCompletion` | src/networkxio/NetworkXioIOHandler.cpp:150-206 | A second completion event for a finished read would put the request into the finished queue twice and break ownership |
| `Servers.FreedWhenDue` | src/networkxio/NetworkXioServer.cpp:384-395 | Client data goes only when its connection is torn down and none of its requests is left |
| `Servers.FreeIff` | src/networkxio/NetworkXioServer.cpp:384-395 | free_request deletes the client data exactly when its connection is torn down and this was its last request, and nobody else's |
| `Servers.FreedForGood` | src/networkxio/NetworkXioServer.cpp:307-318 | Deleted client data never comes back, so it is deleted once |
| `Servers.CompletionsInOrder` | src/networkxio/NetworkXioServer.cpp:397-409 | Over every run the requests freed by send completions are the replies sent, in order, up to those outstanding: the request freed is the one whose reply completed |
| `Servers.HandlingTyped` | src/networkxio/NetworkXioIOHandler.cpp:320-365 | Whatever the request bytes, the reply fits its wire types |
| `XioServers.XioServer.CreateSessionConnection` | src/networkxio/NetworkXioServer.cpp:276-300 | New client data without requests or outstanding replies |
| `XioServers.XioServer.OnRequest` | src/networkxio/NetworkXioServer.cpp:445-460 | The request is in one place, last in the inflight queue, and the reference count is the number of requests of its client |
| `XioServers.XioServer.WorkerTake` | src/networkxio/NetworkXioWorkQueue.h:208-219 | The oldest request is with the worker and nowhere else |
| `XioServers.XioServer.WorkerRun` | src/networkxio/NetworkXioWorkQueue.h:221-234 | The handler runs; the request has left the worker and is in one place: with the I/O executor, or last in the finished queue |
| `XioServers.XioServer.CompletionEvent` | src/networkxio/NetworkXioIOHandler.cpp:150-206 | The request has left the executor and is in one place, last in the finished queue, with its size or -1 as result, the error code, and its packed reply |
| `XioServers.XioServer.FreeRequest` | src/networkxio/NetworkXioServer.cpp:384-395 | That request and no other is gone; its client data is gone if and only if the connection was torn down and this was its last request; other client data stays |
| `XioServers.XioServer.XioSendReply` | src/networkxio/NetworkXioServer.cpp:411-443 | The oldest finished request joins the outstanding replies of its client, or when sending fails is gone |
| `XioServers.XioServer.OnMsgSendComplete` | src/networkxio/NetworkXioServer.cpp:397-409 | The oldest outstanding reply of the client is gone, and its request with it |
| `XioServers.XioServer.DestroySessionConnection` | src/networkxio/NetworkXioServer.cpp:307-318 | Client data goes at once if and only if no request of the client is left |
| `XioServers.ProcessRequest` | src/networkxio/NetworkXioIOHandler.cpp:320-365 | Branch by branch, for every header and every result of the foreign calls, the opcode, cookie, size, result, error and packed reply: an undecodable header gives EBADMSG, open succeeds, close succeeds exactly with a service, a read fails at once for want of a service or memory or when refused and is else under way, any other opcode gives EIO |
| `XioServers.HandleRead` | src/networkxio/NetworkXioIOHandler.cpp:223-308 | Fails exactly without a service, without pool and heap memory, or when the read is refused, with ENOMEM exactly in the second case; else only opcode and size change |
| `XioServers.PackReply` | src/networkxio/NetworkXioIOHandler.cpp:36-42 | The reply header is the encoding of result, error and cookie |
| `Sessions.AnswerMatches` | src/networkxio/NetworkXioClient.cpp:512-539 | Whatever answer reaches a client, the cookie in its header is the address of the live request it is for; a reply carries that request's right result, fixed by what the server's foreign calls returned, and the opcode for it |
| `Sessions.ProcessGood` | src/networkxio/NetworkXioIOHandler.cpp:320-365 | A request processed as it was sent is answered with its cookie and its right result, or read with its own size |
| `Sessions.CompletedGood` | src/networkxio/NetworkXioIOHandler.cpp:174-197 | A completed read is answered with its size or with -1 and the error |
| `Sessions.StepKeeps` | src/networkxio/NetworkXioClient.cpp:343-539 | Every step of clients, transport and server keeps the correlation invariant; no callback is misled by its header |
| `Sessions.RunKeeps` | src/networkxio/NetworkXioClient.cpp:343-539 | So does every interleaving, with lost and reordered messages |
| `Sessions.EveryResponse` | src/networkxio/NetworkXioClient.cpp:512-539 | In every run from the start each response tells exactly the caller of the request it answers, for the first time, with the right result, and touches no other client |
| `Sessions.AnsweredOnce` | src/networkxio/NetworkXioClient.cpp:379-539 | No two answers of a run, responses or errors, are for the same request |
| `Sessions.ReadResult` | src/networkxio/NetworkXioIOHandler.cpp:178-190 | A read of 1 to 2^63 - 1 bytes returns its size if and only if its I/O succeeded, else a negative number |
| `Sessions.HugeRead` | src/networkxio/NetworkXioIOHandler.cpp:178-181 | From 2^63 bytes on, a successful read reports size minus 2^64: the size does not fit ssize_t |
| `Submission.Submitter.Collect` | src/IOExecutor.cpp:419-441 | The batch is the longest prefix of the queue that the free slots allow, in order; counters move with it |
| `Submission.Submitter.Fail` | src/IOExecutor.cpp:480-503 | The untaken jobs are post-processed in order with one code and their slots returned |
| `Submission.Submitter.Offer` | src/IOExecutor.cpp:443-526 | Five tries: the kernel gets a prefix in queue order, each job once; slots returned early and the fatal branch are accounted exactly |
| `Submission.Submitter.ProcessRequestQueue` | src/IOExecutor.cpp:404-556 | For every sequence of io_submit results, from the results alone: the kernel gets a prefix of the batch as long as the results before the first fatal one add up to, each untaken job is posted with the fatal code if that result was met and then with -EINVAL, the slots that come back are those of rounds that left jobs, and no post carries EINTR or EAGAIN |
| `Submission.RetryIs` | src/IOExecutor.cpp:443-526 | The retry loop in closed form: jobs taken, fatal result and slots returned early, by sums of the results |
| `Submission.TransientThenAll` | src/IOExecutor.cpp:467-476 | EINTR, EAGAIN and 0 only cost a try: if a later round takes all, the whole batch is submitted and nothing is posted |
| `Submission.OnlyTransient` | src/IOExecutor.cpp:528-547 | If all tries end that way, each job is posted exactly once, with EINVAL, and its slot is back |
| `Submission.NoTransientPost` | src/IOExecutor.cpp:467-503 | No job is ever post-processed with EINTR or EAGAIN |
| `Submission.CleanIff` | src/IOExecutor.cpp:467-525 | No slot is returned early and no fatal error met exactly when the results before the last are EINTR, EAGAIN or 0 |
| `Submission.SlotsConservedIff` | src/IOExecutor.cpp:502-519 | Slots plus kernel jobs are conserved by a call exactly for such results, and otherwise grow |
| `Submission.OnceIffNotFatal` | src/IOExecutor.cpp:479-544 | An untaken job is post-processed once, or twice after a fatal error; no job more than once if and only if there was none |
| `Executors.RunKeeps` | src/IOExecutor.cpp:404-556 | In every interleaving of callers, consumer and completions: slots, semaphore, queue counter and jobs are accounted for, with the exact drift |
| `Executors.DriftIff` | src/IOExecutor.cpp:502-519 | The slot counter drifts exactly in the runs with a partial or fatal submit |
| `Executors.SlotsConserved` | src/IOExecutor.cpp:416-440 | In every run without them: free slots plus collected plus in-kernel jobs are the queue depth, the semaphore equals the slot counter when no update is pending, no job is post-processed twice |
| `Executors.DrainedIff` | src/IOExecutor.h:88-97 | Once all is drained the slot counter is back at the queue depth if and only if no submit was partial or fatal |
| `Executors.PostedTwiceIff` | src/IOExecutor.cpp:479-544 | Once the consumer rests, a job has been post-processed twice if and only if a fatal submit of the run was offered it |
| `Executors.OnceWithoutFatal` | src/FilerJob.cpp:112-126 | In every run without a fatal submit, partial ones included, each job is post-processed at most once, so its owner gets at most one completion event |
| `Executors.BatchBounded` | src/IOExecutor.cpp:407-441 | A batch exceeds the queue depth, and the arrays of that size, by no more than the drift, and not at all in runs without partial or fatal submits |
| `Executors.SizeBounded` | src/IOExecutor.cpp:672-701 | requestQueueSize_ is queue length plus callers between increment and push plus the pop not yet counted; never negative; at most the limit plus the number of callers, or plus twice that number when callers pause on a full queue |
| `Pressure.BoundAttained` | src/IOExecutor.cpp:674-692 | The first bound is attained for every limit and every number of callers |
| `Pressure.PausedBoundAttained` | src/IOExecutor.cpp:674-692 | So is the second, by callers that pause, are woken together and push without looking again |
| `Pressure.BatchOverruns` | src/IOExecutor.cpp:407-441 | One partial submit can make a later batch one longer than the queue depth, for every depth from 2 on |
| `Executors.RetryIsRun` | src/IOExecutor.cpp:443-526 | The retry loop of Submission.Submitter.Offer is a run of this machine: rounds with the same results reach the state that it computes |
| `Executors.CallIsRun` | src/IOExecutor.cpp:443-556 | So is the rest of the call: for any results the machine reaches a state in which the whole batch is with the kernel or posted, as the closed form says |
| `Executors.RunReports` | src/IOExecutor.cpp:880-917 | Over every run: each post is explained by a completion with this code, a fatal submit with this code, or the end of the tries with EINVAL; and each completion is posted with its code |
| `Executors.NeverWoken` | src/IOExecutor.cpp:550-552 | Callers pause above the limit and are woken only below it: with a limit of 0 no run ever wakes a paused caller |
| `Statistics.StatsCounter.UpdateStats` | src/util/Stats.h:64-78 | The counter summarises its samples and the new one; if meanSquared_ was the sum of squared deviations it still is |
| `Statistics.StatsCounter.MergeFrom` | src/util/Stats.h:107-120 | The counter summarises the samples of both, also when merged with itself; meanSquared_ becomes the average of both weighted by count, and so stays the sum of squared deviations if and only if one side was empty or all samples are equal |
| `Statistics.UpdateSummarises` | src/util/Stats.h:64-78 | An update of a counter that has count, minimum, maximum and mean of some samples has those of the samples and the new one |
| `Statistics.UpdateMeasures` | src/util/Stats.h:64-78 | Welford: an update keeps mean_ the average and meanSquared_ the sum of squared deviations from it |
| `Statistics.FedMeasures` | src/util/Stats.h:64-78 | Both hold after any samples, with the count, minimum and maximum |
| `Statistics.MergeSummarises` | src/util/Stats.h:107-120 | A merge has the count, minimum, maximum and mean of the samples together |
| `Statistics.AnyOrder` | src/util/Stats.h:107-120 | However the same samples are fed and merged, those four agree |
| `Statistics.MergeSquaresIff` | src/util/Stats.h:113-116 | The merged meanSquared_ never exceeds the deviation of the samples together, and equals it if and only if one side is empty or all samples are equal |

## Left out

- Allocation failure: `malloc` and `realloc` succeed, so the `bad_alloc` paths are not modelled.
- References.RefsPointInto: an empty string whose header is one byte gets a pointer that is null or left from an earlier token; the model puts it at the end of the token, and no byte is read through it.
- Unpackers.Unpacker.ReserveBuffer: requires size + m_used below 2^64; `Sizing.RoomIff` shows that this is exactly when the grown buffer has the room.
- Unpackers.Unpacker.Expand: the same.
- Unpackers.Unpacker.ReallocBuffer: the same.
- Unpackers.Unpacker.MoveBuffer: the same.
- Unpackers.Unpacker.Next: after parse_error or size_overflow nothing is promised about the parser, which the code leaves in mid-message.
- Allocators.Allocator.AllocateAlign: requires an aligned payload for a new chunk, the exact condition of `Zones.AllocateAlignKeepsIff`, and sizes that do not wrap.
- Cloning.CloneIsFaithful: excludes an EXT of size 0xffffffff; `Storage.CloneStoresIff` gives the exact condition for storage only, because stale memory can read back as the lost bytes by chance.
- Cloners.Clone: promises to read back only without such an EXT, for the same reason.
- Servers.OnePlace: takes it that the executor reports each read once; that holds in every run without a fatal submit (`Executors.OnceWithoutFatal`), and `Servers.SecondCompletion` shows what a second report would do.
- Sessions.EveryResponse: rests on the same condition.
- Submission.Submitter.Collect: requires that the slot counter does not exceed the arrays, which runs without partial or fatal submits keep (`Executors.BatchBounded`); `Pressure.BatchOverruns` reaches the other case.
- Submission.Submitter.ProcessRequestQueue: the same.
- Executors.SizeBounded: a wait ends only by a notification; a spurious wake-up would let a caller pass as well.
- Statistics.StatsCounter.MergeFrom: requires a sample on one side; with none the source divides zero by zero.
- Float rounding: statistics are over the reals; codec floats are bit patterns, and NaN payloads are only carried. The sample count is unbounded, where the source has 32 bits and asserts that they do not overflow.
- Statistics: `add`, variance, standard deviation and the histograms only read the fields modelled here.
- Encodings of `vrefbuffer`, `zbuffer`, `fbuffer` and `sbuffer`, and the C codec: not used by gobjfs's wire path.
- Adaptors for STL, Boost and tuples: thin wrappers of the packer and of conversion.
- Accelio, libaio, epoll, eventfd and timers: their results are parameters of the steps. Accelio is taken to deliver a message at most once, to report send completions in send order, and to tear a connection down once.
- Exceptions inside `handle_read`, `BYPASS_READ`, and failure to allocate a request.
- Worker thread growth and shrinking: scheduling policy without a safety property.
- Liveness: fairness of wake-ups, shutdown, and that a sent request is answered at all. `Admission.AdmitsIff` says when admission remains possible, not that it happens.
- The fd queue for deletes and unaligned writes, which works like the request queue without slots.
- How `ProcessCallbacks` derives a result code from an event, statistics counters, JSON printing, configuration, logging and benchmarks.
