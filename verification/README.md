# Verified models of AetherGuard's hard parts

A Dafny model of five components of AetherGuard, with proofs of what each is for:

- **The lock-free queue** (`include/readerwriterqueue.h`). `Spsc.dfy` is the two-thread queue with one
  atomic access per step; `SpscInvariant.dfy` states its invariant, `SpscSteps.dfy` and
  `SpscConsumerSteps.dfy` prove that every step keeps it, `SpscTheorems.dfy` draws the conclusions for
  all runs, and `SpscReplies.dfy` says what each call returns and after how many steps. `SpscHeap.dfy` and `SpscClass.dfy` are the queue as an object on the heap: blocks with arrays,
  linked by pointers and updated in place, whose calls refine a plain sequence; `SpscSequential.dfy` and
  `SpscCalls.dfy` say what a call without interference does, and `SpscCapacity.dfy` counts the room left.
  `SpscZero.dfy` shows that a size of 0 is exactly what breaks it. `Bits.dfy` has the masking and
  rounding arithmetic.
- **The semaphore and the blocking queue** (`include/atomicops.h`, `include/readerwriterqueue.h`).
  `Semaphore.dfy` is the count over a kernel semaphore, with a waiter that may time out at any moment;
  `Blocking.dfy` runs it side by side with the lock-free queue, and `BlockingCalls.dfy` says which calls block
  and what they return.
- **Audio files** (`include/AudioFile.h`). `Bytes.dfy`, `Samples.dfy`, `Chunks.dfy`, `Frames.dfy` and
  `Audio.dfy` build up to `Wave.dfy` and `Aiff.dfy`, where every byte of a file is
  accounted for and reading undoes writing; `AiffRate.dfy` is the
  80-bit sample-rate field and `AudioFiles.dfy` the object with its encoders and decoders.
- **The relay** (`sdr-relay/main.cpp`). `RelayRing.dfy` is the ring of slots between callback and sender,
  `ClientStreams.dfy` the TCP clients, `IqFraming.dfy` the wire format and the daemon that reads it,
  `RelayRun.dfy` all of these in one run, from the radio to the daemons; `Scanner.dfy` is the station scan,
  `Lines.dfy` the command splitter.
- **The stream buffer** (`include/asio/basic_streambuf.hpp`). `StreamBuf.dfy`.

Concurrent code is modelled as transition systems: each atomic load or store is one step, the steps of the
threads interleave arbitrarily, and a run is any sequence of steps from the initial state. An unsafe step
(a failed assert, a read of an unconstructed slot, a dangling block) is allowed to lead anywhere, so safety
is a theorem about the runs and not an assumption.

Four promises fail on some inputs. Each is stated with the exact condition under which it holds:

- A queue built with `size` 0 gets a one-slot block, in which full looks like empty. Every run is safe if and
  only if `size >= 1` (`SpscZero.SafeExactlyWhenSized`).
- `signal(0)` to a waiter that has subtracted itself posts a kernel token with nothing behind it
  (`Semaphore.SignalKeepsLaw`).
- The iXML length of an AIFF file is written big-endian and read little-endian, so text survives if and only
  if the bytes of its length are a palindrome (`Aiff.AiffRoundTrip`).
- `reserve` shifts the buffer before it throws and leaves the positions as they were. Whatever the contents,
  they survive the throw if and only if the get position is 0 or at least their length
  (`StreamBuf.ThrowIsHarmlessForAll`); given contents survive if and only if they repeat with the get position
  as period (`StreamBuf.ThrowIsHarmless`). `commit` and `consume` cast to `int`, so they move their position as
  asked if and only if the move is below 2^31.

In the same way, a daemon delivers all frames its client was sent if and only if none is empty
(`RelayRun.EndToEnd`), and the relay makes an empty frame of a non-empty buffer exactly when it holds a single
sample.

Where code and documentation disagree the model follows the code: the audio encoders write no pad byte after
an odd-length chunk, although both file formats ask for one. The AIFF decoder compares the size of the sound
chunk with that of the samples alone, so a chunk with an offset is accepted only if its size leaves the offset
out, which the format does not (`Aiff.OffsetSkipped`).

## Model

| member | source | states |
|---|---|---|
| Bits.MaskedSuccessor | include/readerwriterqueue.h:556-556 | adding one and masking with size - 1 is one step round a power-of-two buffer |
| Bits.MaskedDifference | include/readerwriterqueue.h:502-502 | a wrapping 64-bit difference masked with size - 1 is the cyclic distance from front to tail |
| Bits.CeilToPow2IsLeast | include/readerwriterqueue.h:654-666 | the shift-and-or cascade gives the least power of two not below its argument, exactly for arguments from 1 to 2^63; otherwise 0 |
| SpscTheorems.InitialBlocksSuffice | include/readerwriterqueue.h:116-123 | all initial blocks but one together have room for size elements: (count - 1) * (MAX_BLOCK_SIZE - 1) >= size |
| SpscTheorems.InitialBlocksAreFewest | include/readerwriterqueue.h:116-123 | with any smaller number of blocks they would not: (fewer - 1) * (MAX_BLOCK_SIZE - 1) < size |
| SpscTheorems.InitialShape | include/readerwriterqueue.h:114-143 | a queue is built with one block of the least power of two above size slots if that is at most twice the maximal block, and otherwise with the fewest maximal blocks that hold size elements with one to spare |
| SpscTheorems.InitEstablishesInv | include/readerwriterqueue.h:105-161 | the constructor's ring satisfies the invariant: linked in a circle, empty, power-of-two blocks of at least two slots, enough capacity |
| SpscInvariant.InvSafe | include/readerwriterqueue.h:345-352 | in a state satisfying the invariant neither thread can fail an assert, follow a dangling block, read an unconstructed slot or overwrite a constructed one |
| SpscTheorems.StepKeepsInv | include/readerwriterqueue.h:285-644 | every atomic step of either thread keeps the invariant, with the ring and the element offsets it changes to |
| SpscTheorems.RunKeepsInv | include/readerwriterqueue.h:78-96 | the invariant holds in every state of every run |
| SpscTheorems.NeverFails | include/readerwriterqueue.h:571-602 | in every run the consumer advances only onto a non-empty block and the producer only onto an empty one, and every slot access is to a slot in the right state, so the asserts never fail |
| SpscTheorems.FifoOrder | include/readerwriterqueue.h:285-376 | in every run the removed elements are, in order, a prefix of the enqueued ones: nothing lost, duplicated or reordered |
| SpscTheorems.LogsGrow | include/readerwriterqueue.h:85-92 | what was enqueued or removed stays so, in order |
| SpscTheorems.DequeueReturnsOldest | include/readerwriterqueue.h:308-373 | only try_dequeue returns a value, and the value is the oldest element not yet removed |
| SpscTheorems.RefusedOnlyWhenFull | include/readerwriterqueue.h:571-636 | try_enqueue fails (and enqueue fails for lack of memory) only if the queue held at least size elements at some instant during the call, which the lemma names |
| SpscTheorems.EmptyOnlyWhenEmpty | include/readerwriterqueue.h:308-373 | try_dequeue, pop and peek report empty only if the queue was empty at some instant during the call, which the lemma names |
| SpscTheorems.PeekNamesOldest | include/readerwriterqueue.h:384-421 | a non-null peek names the oldest element and goes on naming it whatever the producer does, until it is removed |
| SpscTheorems.PeekThenDequeue | include/readerwriterqueue.h:384-421 | the element peek named is the one the next successful try_dequeue, and no other kind of call, returns |
| SpscTheorems.PeekAgain | include/readerwriterqueue.h:384-421 | a second peek before a removal returns the same pointer, even if blocks were added in between |
| SpscTheorems.ShadowIndicesSound | include/readerwriterqueue.h:309-324 | in every reachable state localTail lies between front and tail and localFront in cyclic order before front, and each cached fast path takes the branch a fresh load would take |
| SpscTheorems.ShadowsArePast | include/readerwriterqueue.h:553-568 | in every run each localFront is a value that block's front had at an earlier instant, and each localTail one its tail had; the lemma names the instants |
| SpscReplies.CallReturns | include/readerwriterqueue.h:285-489 | in every run, whatever the producer does meanwhile: a call removes nothing until it returns; it returns empty-handed, or, if it is a try_dequeue, with the oldest element, now removed, or, if a pop, having removed it, or, if a peek, with its place |
| SpscReplies.EnqueueReturns | include/readerwriterqueue.h:535-644 | in every run, whatever the consumer does meanwhile: an enqueue that returns true has put exactly its element at the end, one that returns false has added nothing, and with permission to allocate it does so only because memory ran out; without permission no block is added |
| SpscReplies.AllocatesOnlyWhenFull | include/readerwriterqueue.h:603-611 | a call comes to allocate only if the queue held at least size elements at some instant of it, which the lemma names |
| SpscReplies.AllocatesOnce | include/readerwriterqueue.h:20-25 | as long as the queue has held fewer than size elements it has the blocks it was built with |
| SpscReplies.ConsumerIsWaitFree | include/readerwriterqueue.h:285-489 | whatever the producer does, a try_dequeue, pop or peek has returned after 13 steps of its own |
| SpscReplies.ProducerIsWaitFree | include/readerwriterqueue.h:535-644 | whatever the consumer does, an enqueue has returned after 11 steps of its own |
| SpscZero.ZeroSizeFails | include/readerwriterqueue.h:116-116 | with size 0 there is a run after which 1, 2 and 3 are enqueued and only 1 and 2 removed, 3 sits in a block whose front equals its tail, and the consumer's assert fails |
| SpscZero.SafeExactlyWhenSized | include/readerwriterqueue.h:105-116 | every run is safe if and only if the queue was constructed with size at least 1 |
| SpscSequential.FindRoom | include/readerwriterqueue.h:552-557 | net effect of the test for room in the tail block, with its refresh of localFront |
| SpscSequential.UseNextStores | include/readerwriterqueue.h:581-601 | net effect of enqueueing into the free block after a full tail block |
| SpscSequential.AddBlockLink | include/readerwriterqueue.h:621-631 | net effect of linking a new block in behind the tail block and publishing it |
| SpscSequential.FindFront | include/readerwriterqueue.h:308-312 | net effect of the test for an element in the front block, with its refresh of localTail |
| SpscSequential.MoveToNext | include/readerwriterqueue.h:326-360 | net effect of leaving a drained front block behind; the next block is not empty |
| SpscSequential.RemoveElement | include/readerwriterqueue.h:313-324 | net effect of taking the oldest element out of its slot and giving the slot up |
| SpscClass.BuildRing | include/readerwriterqueue.h:126-143 | the constructor's loop allocates the blocks on the heap and links them into a circle |
| SpscClass.MakeBlocks | include/readerwriterqueue.h:114-155 | the constructor builds one block with a spare slot, or enough blocks of the maximal size |
| SpscClass.ReaderWriterQueue.constructor | include/readerwriterqueue.h:105-161 | a new queue is valid and empty |
| SpscClass.ReaderWriterQueue.InnerEnqueue | include/readerwriterqueue.h:535-644 | on heap blocks updated in place: appends the element to the contents; fails only when it may not or cannot allocate and the queue holds size elements, and then keeps the contents; without permission it succeeds if and only if there is room and takes one from the room; at most one block is added, and only with permission |
| SpscClass.ReaderWriterQueue.TryDequeue | include/readerwriterqueue.h:285-376 | returns and removes the first of the contents, or nothing exactly when they are empty |
| SpscClass.ReaderWriterQueue.Pop | include/readerwriterqueue.h:426-489 | removes the first of the contents, failing exactly when they are empty |
| SpscClass.ReaderWriterQueue.Peek | include/readerwriterqueue.h:384-421 | names the slot of the first of the contents, or null exactly when they are empty, and changes no contents |
| SpscClass.ReaderWriterQueue.SizeApprox | include/readerwriterqueue.h:493-506 | the masked differences added up once round the ring are the number of elements |
| SpscClass.ReaderWriterQueue.MaxCapacity | include/readerwriterqueue.h:517-527 | the masks added up once round the ring are at least size and at least the number of elements, and for an empty queue are its room: as many enqueues succeed without allocating, and no more |
| SpscCapacity.RoomWhenEmpty | include/readerwriterqueue.h:509-527 | an empty queue has room for what all its blocks together can take, wherever in the ring it stands |
| SpscCapacity.RoomAfterHere | include/readerwriterqueue.h:556-569 | filling a slot of the tail block takes exactly one from the room |
| SpscCapacity.RoomAfterNext | include/readerwriterqueue.h:571-602 | so does moving on to the next block and filling its first slot |
| SpscCapacity.RoomWhenRefused | include/readerwriterqueue.h:571-636 | when the tail block is full and followed by the front block, no room is left |
| Semaphore.StepKeepsInv | include/atomicops.h:678-756 | a step keeps the books in balance if and only if it is not a signal(0) with a negative count |
| Semaphore.Conservation | include/atomicops.h:678-756 | over every interleaving with timeouts at any point: the count never goes below -1, nothing is acquired that was not there, and when the waiter is between calls the count is initial + signalled - acquired with no kernel token left over or still to be posted |
| Semaphore.NoLostWakeup | include/atomicops.h:694-703 | a sleeping waiter with something to acquire has a kernel token waiting or about to be posted |
| Semaphore.GivingUpIsHonest | include/atomicops.h:709-718 | a wait returns false only at an instant when nothing was left, and the count is restored |
| Semaphore.TryWaitReturns | include/atomicops.h:725-733 | in every run tryWait never sleeps and has returned after two steps of its own, with one unit acquired if true and none if false |
| Semaphore.WaitReturns | include/atomicops.h:678-717 | in every run wait(0) never sleeps and any other wait only with its own timeout; such a wait returns false only after the kernel wait failed or timed out within the call; and no wait sleeps or returns false before it has looked 1025 times |
| Semaphore.LookTakes | include/atomicops.h:685-693 | a look that finds the count positive takes one unit with the next step |
| Semaphore.TurningBackEnds | include/atomicops.h:709-718 | once nothing is being posted, a waiter that turns back returns false at once if nothing is left, and otherwise has the kernel's token after three steps |
| Semaphore.SignalKeepsLaw | include/atomicops.h:747-756 | after signal(n) every continuation comes to rest in balance if and only if n is not 0 or the count was not negative |
| Semaphore.UnbackedToken | include/atomicops.h:747-756 | after signal(0) to a counted waiter there is a continuation that ends out of balance |
| Semaphore.ZeroSignalAcquiresFromNothing | include/atomicops.h:747-756 | a run from the empty semaphore, spinning included, in which signal(0) lets the waiter acquire what was never there |
| Blocking.StepKeeps | include/readerwriterqueue.h:784-950 | every step of the combined system keeps the queue's invariant and the agreement of its logs with the semaphore's books |
| Blocking.BlockingSafety | include/readerwriterqueue.h:861-950 | in every run mixing timed, untimed and non-blocking calls: after an acquire the inner call never finds the queue empty, elements come out in order, and size_approx never exceeds the number of elements |
| Blocking.SleeperCanWake | include/readerwriterqueue.h:876-883 | a sleeping consumer can wake at once when an element is queued and the producer is between calls |
| Blocking.ExactAtRest | include/readerwriterqueue.h:947-950 | with both threads between calls size_approx is exact |
| Blocking.RefusedOnlyWhenDrained | include/readerwriterqueue.h:861-904 | a call returns false only at an instant when every signalled element was already removed |
| BlockingCalls.TakeReturns | include/readerwriterqueue.h:861-943 | in every run a call is either refused by the semaphore, having removed nothing, and then it is not a wait_dequeue and, if it was to wait some time, the kernel wait failed or timed out within it; or it returns the oldest element, now removed, or, if a pop, has removed it |
| BlockingCalls.TriesNeverBlock | include/readerwriterqueue.h:861-943 | try_dequeue, pop and a timed wait of no time are never asleep, and in the first two the semaphore has answered after two steps |
| BlockingCalls.SleepsAsTold | include/readerwriterqueue.h:876-904 | whoever sleeps is a wait_dequeue, without a limit, or a timed wait, with its own |
| BlockingCalls.WaitsWithoutLimit | include/readerwriterqueue.h:876-883 | wait_dequeue waits again only after the kernel wait has failed |
| BlockingCalls.PeekReturns | include/readerwriterqueue.h:922-930 | in every run peek takes no part in the semaphore's waits, removes nothing, and returns null or the place of the oldest element |
| BlockingCalls.EnqueueReturns | include/readerwriterqueue.h:784-855 | in every run an enqueue the inner queue refuses adds nothing; any other has put exactly its element at the end, and every element is signalled by then |
| Bytes.LoadStore | include/AudioFile.h:1157-1199 | what the byte helpers write reads back as the number modulo 256^n, in either byte order |
| Bytes.SignedRoundTrip | include/AudioFile.h:1232-1264 | every n-byte two's complement integer survives being written and read, in either byte order |
| Bytes.StoreLoad | include/AudioFile.h:1157-1199 | the bytes of a number are the only ones that read back as it |
| Bytes.StoreSigned | include/AudioFile.h:1232-1264 | what is read from bytes as a two's complement number is written as those bytes |
| Bytes.StoreByte | include/AudioFile.h:1157-1199 | byte k of a number of n bytes is its digit to the base 256 of weight 256^k in little-endian and 256^(n-1-k) in big-endian order |
| Samples.SampleRoundTrip | include/AudioFile.h:1339-1535 | for every integer sample type and every depth no wider than it, a sample stored and read back is its clamp into the depth's range |
| Samples.SampleByte | include/AudioFile.h:955-998 | the bytes of a sample: its value moved and clamped into the depth's two's complement range, in a WAV file the least significant byte first and 8-bit samples moved up by 128, in an AIFF file the most significant byte first |
| Samples.SampleBytesSurvive | include/AudioFile.h:633-693 | bytes read as a sample and stored again are the same bytes, for every bit pattern |
| Chunks.FindChunk | include/AudioFile.h:1268-1303 | the result is -1 or a position in bounds where the ID stands |
| Chunks.GetIndexOfChunk | include/AudioFile.h:1268-1303 | the loop terminates, stays in bounds and gives what the walk finds; -1 for an ID that is not four bytes |
| Chunks.WalkFinds | include/AudioFile.h:1268-1303 | for every well-formed list of chunks after a header, in either byte order, the walk lands on the first chunk with the ID and never inside a body |
| Chunks.LocatedIsFirst | include/AudioFile.h:1268-1303 | the position is -1 exactly when no chunk has the ID, and otherwise the end of all chunks before the first that has |
| Frames.WriteFrames | include/AudioFile.h:951-1008 | the encoder's loops append the interleaved samples, and fail exactly when there is a sample and the depth is not supported |
| Frames.ReadFrames | include/AudioFile.h:633-693 | the decoder's loops fill each channel, and fail exactly when the file is too short for the frames, leaving in the channels the samples read up to that place |
| Frames.DataSlice | include/AudioFile.h:951-1008 | the sample of frame i and channel c stands at its place in the data |
| Frames.FramesRoundTrip | include/AudioFile.h:633-693 | interleaved and read back, every sample is its clamp |
| Wave.WaveContents | include/AudioFile.h:904-1027 | where an encoded WAV file holds its chunks, and that each can be read back |
| Wave.ByteRateIs | include/AudioFile.h:935-936 | the byte rate written is channels times rate times bits modulo 2^32, over 8 |
| Wave.WaveHeaderWritten | include/AudioFile.h:904-1016 | every field of the 44-byte header and of the text chunk, number by number and byte by byte |
| Wave.WaveSampleWritten | include/AudioFile.h:955-1008 | sample i of channel c stands at 44 + (i * channels + c) * bytes, the least significant byte first |
| Wave.FormatAccepted | include/AudioFile.h:573-622 | the decoder accepts a format chunk exactly for formats 1, 3 and 0xFFFE, 1 to 128 channels, 8, 16, 24 or 32 bits no wider than the sample type, and matching byte rate and block size |
| Wave.FramesInIs | include/AudioFile.h:624-627 | the decoder reads as many frames as fit whole into the data chunk, and none for a negative size |
| Wave.FormatReadBack | include/AudioFile.h:573-622 | the format chunk passes every check of the decoder, with a byte rate that may have wrapped modulo 2^32 |
| Wave.WaveRoundTrip | include/AudioFile.h:549-704 | decoding an encoded WAV file returns the rate, depth, shape and text, and each sample clamped, for 1 to 128 channels, any 32-bit rate and any text below 2^31 bytes in all |
| Aiff.SoundReadBack | include/AudioFile.h:776-792 | the sound data of an encoded AIFF file passes the size check against the common chunk and gives back the clamped samples |
| Aiff.AiffHeaderWritten | include/AudioFile.h:1031-1118 | every field of the 54 bytes before the samples and of the text chunk, number by number and byte by byte |
| Aiff.AiffSampleWritten | include/AudioFile.h:1067-1108 | sample i of channel c stands at 54 + (i * channels + c) * bytes, the most significant byte first |
| Aiff.CommonAccepted | include/AudioFile.h:735-774 | the decoder accepts a common chunk exactly for 1 or 2 channels, a rate above 0, and 8, 16, 24 or 32 bits no wider than the sample type |
| Aiff.TypesAccepted | include/AudioFile.h:713-731 | the decoder goes on if and only if the file begins "FORM", is of type "AIFF" or "AIFC" and has both chunks, and rejects any other |
| Aiff.OffsetSkipped | include/AudioFile.h:776-792 | samples behind an offset are read from there, and are accepted if and only if the chunk's size does not count the offset |
| Aiff.SwappedIsSame | include/AudioFile.h:1117-1117 | a length written big-endian and read little-endian is unchanged if and only if its four bytes are a palindrome |
| Aiff.DecodedAiff | include/AudioFile.h:708-859 | what decoding an encoded AIFF file yields in full, including how much of the text |
| Aiff.AiffRoundTrip | include/AudioFile.h:708-859 | mono or stereo, rate at least 1: everything comes back if and only if there is no text or its length is palindromic |
| Aiff.OneByteTextIsLost | include/AudioFile.h:854-855 | with a text of one byte the decoder reads beyond the file |
| AiffRate.EncodeRate | include/AudioFile.h:1581-1611 | the packing loop fills the ten bytes |
| AiffRate.UnpackMantissa | include/AudioFile.h:1566-1569 | the unpacking loop puts the mantissa together |
| AiffRate.DecodeRate | include/AudioFile.h:1538-1578 | exponent, unpacked mantissa and sign give the rate the ten bytes stand for, or none that fits 32 bits |
| AiffRate.RateRoundTrip | include/AudioFile.h:1538-1611 | with whatever exponent e the logarithm gave, the mantissa fits if and only if the rate is below 2^(e+1), and the rate then comes back |
| AiffRate.RateRoundTripExact | include/AudioFile.h:1538-1611 | with the exact floor of the logarithm every rate from 1 to 2^32 - 1 comes back |
| AiffRate.RateWritten | include/AudioFile.h:1581-1611 | the ten bytes are the exponent plus 16383 and the rate times 2^(63-e), both big-endian, with the sign clear |
| AiffRate.RateRead | include/AudioFile.h:1538-1578 | what is read is the mantissa over 2^63 times 2^e rounded down, unless it is negative or 2^32 or more |
| AiffRate.RateOf44100 | include/AudioFile.h:1581-1611 | the ten bytes of 44100 Hz |
| AudioFiles.AudioFile.constructor | include/AudioFile.h:313-320 | a new file is one empty channel, 16 bits, 44100 Hz, no text |
| AudioFiles.AudioFile.EncodeWaveFile | include/AudioFile.h:904-1027 | appends the file's bytes, and reports success if and only if the vector was empty and the depth is supported or there is nothing to store; on success every byte is stated: header, each sample little-endian at its place, text |
| AudioFiles.AudioFile.EncodeAiffFile | include/AudioFile.h:1031-1129 | the same for AIFF: header with the 80-bit rate, each sample big-endian at its place, text |
| AudioFiles.AudioFile.DecodeWaveFile | include/AudioFile.h:549-704 | fills the fields with what the file holds, or fails exactly when the file is to be rejected; text is kept when the file has none; after a rejection: the fields are untouched unless header and chunks are there, and otherwise hold the file's rate and depth and, if the format was accepted, the samples up to the cut |
| AudioFiles.AudioFile.DecodeAiffFile | include/AudioFile.h:708-859 | the same for AIFF, where a rejection never touches samples or text |
| RelayRing.StepKeepsInv | sdr-relay/main.cpp:118-203 | every step of callback or sender keeps the ring in order: the ready slots are those of the accepted frames not yet taken, and each holds its frame |
| RelayRing.TakenAreAccepted | sdr-relay/main.cpp:177-203 | in every run the frames taken are the accepted frames in order, each once and untorn, with at most 64 outstanding |
| RelayRing.DroppedExactlyWhenFull | sdr-relay/main.cpp:141-146 | the check drops a buffer if and only if 64 accepted frames are unreleased |
| RelayRing.BufferOutcome | sdr-relay/main.cpp:131-153 | in every run a non-empty buffer delivered outside scanning is either dropped, with 64 accepted frames unreleased at the check, or becomes the next accepted frame, whole but for a half pair at its end and what is beyond 32768 samples, whatever the sender does meanwhile |
| RelayRing.NothingWhileScanning | sdr-relay/main.cpp:136-136 | a delivery leaves the relay as it was if and only if it is scanning or the buffer is empty |
| ClientStreams.StepKeepsInv | sdr-relay/main.cpp:159-217 | joining, sending, failing and removing keep every client's stream in order |
| ClientStreams.StreamIntegrity | sdr-relay/main.cpp:205-217 | in every run each client has received whole consecutive frames from its join point, then at most one truncated frame; a client not cut short has them all |
| ClientStreams.NothingAfterCut | sdr-relay/main.cpp:205-217 | after a truncated frame a client receives nothing more |
| IqFraming.ReadConnection | sdr-daemon/src/main.cpp:206-239 | the daemon's loop delivers the blocks of the stream up to the first frame that is incomplete, has a wrong magic number or an invalid count |
| IqFraming.ParseJoined | include/iq_protocol.hpp:9-14 | whole frames and part of another parse back to exactly their blocks and that part |
| IqFraming.ConnectionParses | sdr-relay/main.cpp:191-217 | a connection's bytes parse back to the blocks broadcast since it joined, and the daemon delivers exactly those if and only if none of them is empty |
| IqFraming.FramingIsUnique | include/iq_protocol.hpp:9-14 | two lists of blocks with the same bytes are the same list |
| IqFraming.EmptyBlockExactly | sdr-relay/main.cpp:136-139 | a buffer of 16-bit samples becomes a block the framing can carry, all of it but a half pair or what is beyond 32768 samples, and one of no samples if and only if it is shorter than a pair |
| IqFraming.FrameWritten | sdr-relay/main.cpp:190-199 | a frame byte by byte: "IQPC", the number of pairs big-endian, each sample little-endian |
| IqFraming.ReadsFirst | sdr-daemon/src/main.cpp:206-239 | the daemon goes on if and only if a stream starts with "IQPC", a count from 1 to 65536 and that many pairs, and it then delivers those samples and continues behind them |
| RelayRun.StepKeepsInv | sdr-relay/main.cpp:131-219 | every step of callback, sender, send loop and joining clients keeps ring and streams in order and in step: the frames broadcast are those of the blocks taken, but for one the sender may hold |
| RelayRun.EndToEnd | sdr-relay/main.cpp:131-219 | in every run each client's bytes parse back to the frames accepted from the radio since it joined, in order and untorn; its daemon delivers them all if and only if none is empty; a client not cut short is behind by at most 65 frames |
| RelayRun.DaemonGetsAll | sdr-daemon/src/main.cpp:206-239 | as long as the radio delivers no buffer of a single sample, every daemon delivers every frame its client was sent |
| Scanner.Scan | sdr-relay/main.cpp:367-408 | the stations come out in increasing order and are exactly the earliest strongest channels, above -999 and ending in an odd tenth, of the maximal runs of at least two channels at or above squelch |
| Scanner.OneStationPerRun | sdr-relay/main.cpp:367-408 | each such run with powers above -999 has exactly one station |
| Lines.LineSplitter.Receive | sdr-relay/main.cpp:452-478 | after every chunk the lines handled are those of the whole stream and the buffer is its newline-free end |
| Lines.SplitEarly | sdr-relay/main.cpp:459-464 | lines can be split off before the rest arrives if only the leftover is kept |
| Lines.SegmentationIndependence | sdr-relay/main.cpp:452-478 | the outcome depends only on the bytes and not on how they were cut into chunks |
| Lines.LinesOfTerminated | sdr-relay/main.cpp:461-464 | newline-terminated lines joined up give back exactly the non-empty ones, and what follows is left over |
| StreamBuf.BumpIsExact | include/asio/basic_streambuf.hpp:236-236 | the cast to int is exact if and only if the size is below 2^31 |
| StreamBuf.ThrowIsHarmless | include/asio/basic_streambuf.hpp:322-341 | given contents survive a throw if and only if they repeat with the get position as period |
| StreamBuf.ThrowIsHarmlessForAll | include/asio/basic_streambuf.hpp:322-341 | all contents of a length survive a throw if and only if the get position is 0 or at least that length |
| StreamBuf.ThrowCanCorrupt | include/asio/basic_streambuf.hpp:308-346 | prepare, commit and consume followed by a prepare beyond the maximum leave "bcc" where "abc" was appended and not consumed |
| StreamBuf.BasicStreambuf.constructor | include/asio/basic_streambuf.hpp:131-141 | a new buffer is empty and within its maximum size |
| StreamBuf.BasicStreambuf.Size | include/asio/basic_streambuf.hpp:158-161 | the size is that of the contents and never above the maximum |
| StreamBuf.BasicStreambuf.Reserve | include/asio/basic_streambuf.hpp:308-346 | keeps the contents through shift and growth and makes room, or throws, if and only if contents and request exceed the maximum; where the get position and the end of the put area are afterwards, and what a throw leaves behind |
| StreamBuf.BasicStreambuf.Prepare | include/asio/basic_streambuf.hpp:214-219 | an output sequence of the size asked for, contents kept; throws exactly beyond the maximum, and then keeps the contents exactly when they are periodic, so whenever the get position is 0 or at least their length |
| StreamBuf.BasicStreambuf.Fill | include/asio/basic_streambuf.hpp:88-98 | writing into the prepared output sequence leaves the contents as they are |
| StreamBuf.BasicStreambuf.Commit | include/asio/basic_streambuf.hpp:233-238 | the put position moves by as much of the output sequence as was asked for if and only if that is below 2^31, and then exactly that joins the contents |
| StreamBuf.BasicStreambuf.Consume | include/asio/basic_streambuf.hpp:247-254 | the get position moves by as much of the contents as was asked for if and only if that is below 2^31, and then exactly that is gone |
| StreamBuf.BasicStreambuf.Overflow | include/asio/basic_streambuf.hpp:283-306 | one character is appended, growing a full put area by 128 or up to the maximum; throws exactly at the maximum size, and then changes nothing |
| StreamBuf.BasicStreambuf.Underflow | include/asio/basic_streambuf.hpp:263-274 | the first of the contents, or end of file exactly when there is none |

## Left out

- Weak memory: fences, compiler barriers and memory orders (`include/atomicops.h:148-239`); interleaving is sequentially consistent.
- The raw memory of a block: alignment, padding and the placement of elements in it. A slot is an array element that holds an element or nothing.
- SpscTheorems.InitEstablishesInv: `size + 2 * MAX_BLOCK_SIZE` is taken to be at most 2^63, beyond which the 64-bit arithmetic of the constructor overflows.
- Queue move construction and assignment, placement new, exceptions thrown by element constructors, and the re-entrancy guards.
- The platform semaphores, clocks and timeouts: the kernel semaphore is a counter whose wait may succeed or give up at any moment.
- Semaphore.Conservation: counts are unbounded, so overflow of the 64-bit count is not modelled, and there is one signaller and one waiter, as the code requires.
- Samples.SampleByte: a depth wider than the sample type, where the code converts the bounds of the clamp to that type, is computed as in the code but not characterised.
- Floating-point sample types, and 32-bit floating-point data in AIFC files.
- AiffRate.RateRoundTrip: a mantissa with more than 53 significant bits, which the code would round and the encoder never writes, is read exactly.
- Malformed audio files on which the code reads out of bounds or overflows an `int` are one outcome, `Outside`; nothing is said of what follows. Asserts on malformed sizes are taken as compiled out.
- File input and output, format detection, and the setters and getters of `AudioFile`.
- RelayRing.TakenAreAccepted: the `int` counters are unbounded, so their wrap past 2^31 is not modelled.
- ClientStreams.StreamIntegrity: a connection is its number in order of joining, so reuse of a closed descriptor by the operating system is not modelled.
- Scanner.Scan: channels are whole tenths of a MHz, so the rounding of repeatedly adding 0.1 is not modelled, nor is the measurement of power.
- The daemon after it has received a block, and its reconnection.
- StreamBuf.BasicStreambuf.Commit: after a move of 2^31 characters or more, which leaves the put position where it should not be, nothing is said of the buffer beyond that; the same holds for `Consume`.
- The stream buffer's capacity, allocators and read-size helper, and the other asio headers.
- JSON commands, sockets, the SDR driver, Redis, SQLite, the web services, the AI worker and the React client: plumbing over libraries that are not part of this model.
