# A verified model of the audio daemon and its browser recorder

Dafny models of the parts of the repository where threads, callbacks or byte
layouts meet, and proofs about every run, every input or every message history
of them. `dafny verify dfyconfig.toml` verifies the project.

- **Microphone fan-out** (`Survivors`, `ClientList`, `FanOut`). The client list
  is modelled twice: as heap cells that one pass unlinks and frees in place,
  and as an interleaving of any number of record threads with the input server.
  `Survivors` says without either what a pass should leave behind, and both
  models are proved equal to it.
- **Audio output** (`OutputSlot`, `AudioOut`, `OutputThreads`). The one-chunk
  slot shared by the server thread and the play thread, with wait sets, spurious
  wake-ups and failed sends, for the standalone daemon and for iad in one state
  machine; the device reads and iad's unlocked clear writes byte by byte. The
  same steps are then driven on real buffers.
- **Recorder** (`Pcm`, `Riff`, `Recorder`, `Worker`, `Callbacks`). The worker's
  buffers, its quantiser and its WAV bytes, read back by an independent RIFF
  reader over any message history; and the message passing between page and
  worker.
- **Resampler** (`Resampler`), in exact rationals.
- **Web client** (`WebClient`). The WebSocket and HTTP callbacks that share one
  daemon socket and one growing buffer.
- **Control requests** (`Decimal`, `Control`). Messages, words, decimal text in
  a ten-byte buffer, and the two variables.
- **Configuration** (`Config`, `Settings`). The validator against a flat schema
  of required paths, and the settings the devices start with.

`Bytes`, `Options` and `Sequences` hold small shared pieces.

## What turned out not to hold

Each item names a lemma with a run or input that shows it, and the theorem that
says exactly when the property does hold.

- A failed `pthread_create` frees a client cell that is still linked, or frees
  it a second time if a pass has freed it in between. All is well exactly when
  allocation fails or the thread is created (`ClientList.Clients.Abort`,
  `HandleClient`).
- With two record threads a later frame can be broadcast first
  (`FanOut.TwoThreadsCanReorder`). The device's order is kept exactly when the
  lock is always taken by a thread that holds the oldest frame held
  (`FanOut.BroadcastOrderCondition`).
- iad's end-of-client clear runs without the lock, and its retry replaces the
  buffer. A frame can therefore have zeros in place of any of its bytes, be
  empty, or be the contents of fresh memory (`AudioOut.ClearCanTear`,
  `ClearCanEmptyFrame`, `RetryCanPlayGarbage`). From a buffer not
  replaced the first two are exactly what can be played
  (`IadFramesAreChunkOrZeros`); from a replaced one, exactly the empty frame and
  any bytes of the chunk's length (`ReplacedFramesAreAnything`). The model
  keeps the code as it is; it does not move the clear under the lock.
- The standalone daemon always plays what was sent, but may play one client's
  last chunk in the next client's session (`AudioOut.StandaloneLeaks`). Admitting
  a client is sure not to leak exactly when no chunk is pending at that moment
  (`AdmissionIsSafeWhenIdle`).
- The comment on the WAV byte rate says rate times block align. The code
  writes rate times four, which is that for two channels only
  (`Riff.MonoByteRateIsDoubled`, `ByteRateIsRightForStereoOnly`).
- Callback lists are popped last in first out, so two requests of one command
  waiting together get each other's replies (`Callbacks.PopCanMisroute`). A page
  that asks only while no callback of the command is waiting gets its own
  replies (`RepliesReachPatientCallers`).
- The streaming quantiser clamps from above only (`Pcm.StreamCanWrap`) and
  wraps for inputs at or below -32769/32767 (`StreamWrapsBelow`).
- The end of an HTTP upload closes the daemon socket although WebSockets
  remain open, and their audio is then lost (`WebClient.OpenWebSocketCanBeSilent`).
  The socket is open exactly when some callback opened it and none has closed it
  since (`OpenIffConnected`).
- A control variable outside -99999999..999999999 comes back cut short
  (`Decimal.FirstValuesCut`, `PrintThenParse`).
- A configuration that the validator refuses still supplies settings, though
  the program reports that it continues with defaults
  (`Settings.RefusedFileStillCounts`). Input and output each start with all
  their defaults exactly when every attribute read for them is missing, out of
  its range or the default itself (`InputDefaultsCondition`,
  `OutputDefaultsCondition`), and a server uses its default path exactly when
  the file has no text for it or that very path (`PathDefaultCondition`).

## Model

| member | source | states |
|---|---|---|
| `Survivors.KeptIndicesExact` | src/iad/audio/input.c:152-180 | the surviving positions of a pass are exactly those whose write did not fail, each once, in increasing order |
| `Survivors.KeptIsOrderedFilter` | src/iad/audio/input.c:152-180 | a pass keeps the successful clients and no others, in their original order |
| `Survivors.KeptIfWritten` | src/iad/audio/input.c:152-180 | client number i of a pass is among those kept if and only if the number that write returned for it is zero or more |
| `ClientList.ChainIsAcyclic` | src/iad/audio/input.c:169-172 | a client chain that ends in null visits no cell twice |
| `ClientList.Clients.HandleClient` | src/iad/network/input_server.c:21-50 | for any passes of other threads between unlock and thread creation, the last perhaps under way, the list is well formed and no cell freed twice if and only if malloc failed or the thread was created |
| `ClientList.Clients.Link` | src/iad/network/input_server.c:22-35 | under the lock prepends one fresh cell, or nothing if malloc fails; the list stays well formed |
| `ClientList.Clients.Abort` | src/iad/network/input_server.c:43-46 | the failing branch leaves a linked freed cell, or frees a second time if and only if a pass has already unlinked the cell |
| `ClientList.Clients.FindPredecessor` | src/iad/audio/input.c:169-172 | the scan from the head ends at the predecessor without running off the end or touching a freed cell |
| `ClientList.Clients.RemoveHead` | src/iad/audio/input.c:164-167 | drops the first cell, frees it once, keeps every other cell in order |
| `ClientList.Clients.RemoveAfter` | src/iad/audio/input.c:173-174 | unlinks exactly the cell at its position and frees it once |
| `ClientList.Clients.Remove` | src/iad/audio/input.c:164-176 | both removal branches leave the list without that cell and continue at its successor |
| `ClientList.Clients.Visit` | src/iad/audio/input.c:155-179 | one write to one client; the client stays if and only if the write did not fail |
| `ClientList.Clients.Broadcast` | src/iad/audio/input.c:152-180 | a pass over any list and any write outcomes ends; write number i goes to client number i of those present at entry; that client stays if and only if the number returned is zero or more, order kept; exactly the others are freed, and allocated = linked + freed |
| `ClientList.Clients.Serve` | src/iad/audio/input.c:135-186 | over any history of arrivals and passes: the heap list stays well formed, with every cell linked or freed, if and only if no thread creation failed, and then serves the same sockets with the same writes as a plain list does |
| `FanOut.StreamsKept` | src/iad/audio/input.c:135-186 | every step of every thread keeps what each linked or unlinked client has been sent equal to a segment of the broadcast order |
| `FanOut.FramesKept` | src/iad/audio/input.c:137-183 | every step keeps each frame in one place: held, broadcast, carried or released by the thread that obtained it |
| `FanOut.RunsAreSafe` | src/iad/audio/input.c:135-186 | the three invariants hold along every interleaving of arrivals, fetches, exits, passes and releases |
| `FanOut.LinkedClientGetsEachFrameOnce` | src/iad/audio/input.c:152-180 | in every reachable state a linked client has got each frame broadcast during its membership exactly once and no other |
| `FanOut.UnlinkedClientMissesOnlyTheLast` | src/iad/audio/input.c:158-178 | an unlinked client got each frame of its membership once except the one whose write failed |
| `FanOut.FramesAreConserved` | src/iad/audio/input.c:135-186 | frames obtained = broadcast + held, at most one per thread, = released + carried, also when threads exit on an error |
| `FanOut.StateTellsTheRun` | src/iad/audio/input.c:135-186 | over any run, from its steps alone: a client has been sent and has got exactly the frames of the writes aimed at it and of those that did not fail; it joined after as many passes as had begun before it arrived; it is linked, newest first, until a write to it fails; a pass broadcasts and a release returns the frame its thread fetched last |
| `FanOut.LastStepTells` | src/iad/audio/input.c:135-183 | over any run a thread stands where its own latest step has left it, and one that has exited stays so |
| `FanOut.NobodyIsStuck` | src/iad/audio/input.c:135-183 | no deadlock: in every reachable state a thread that has not exited can move, or has a frame in hand and waits for a lock whose owner can move |
| `FanOut.PassLeavesKept` | src/iad/audio/input.c:150-180 | a pass taken write by write under the lock leaves the same list as the in-place heap pass |
| `FanOut.BroadcastOrderCondition` | src/iad/audio/input.c:137-150 | over any run frames are broadcast in device order with none skipped if and only if the lock is always taken by a thread that holds the oldest frame held |
| `FanOut.OrderedStreamsAreContiguous` | src/iad/audio/input.c:135-186 | in such a run the stream of every client, linked or unlinked, is a contiguous ascending run of frames |
| `FanOut.SoloStreamsAreContiguous` | src/iad/audio/input.c:135-186 | while one record thread lives at a time the stream of every client, linked or unlinked, is a contiguous ascending run of frames |
| `FanOut.TwoThreadsCanReorder` | src/iad/audio/input.c:150-180 | a reachable state in which frame 1 was broadcast before frame 0 |
| `OutputSlot.FilledThenFrame` | src/iad/network/output_server.c:92-98 | a published chunk is read back exactly whatever longer chunk lay in the buffer, and nothing behind it changes |
| `OutputSlot.SharedSlot.Publish` | src/iad/network/output_server.c:93-97 | copies the chunk to the front of the buffer and sets the size, leaving the rest |
| `OutputSlot.SharedSlot.Wipe` | src/iad/network/output_server.c:84 | zeroes the whole buffer |
| `OutputThreads.Threads.Do` | src/iad/audio/output.c:157-185 | each step of either thread on the real slot does what the state machine says, with a clear under way writing to a replaced buffer if and only if the buffer was replaced |
| `OutputThreads.RunThreads` | src/iad/network/output_server.c:63-109 | for any interleaving on real buffers, against the chunks of the run's reads: the frame the device accepts with its i-th success is made of the chunk whose read was published last by then, in the order read and none twice; standalone frames are its bytes exactly, iad frames from an unreplaced buffer are empty or those bytes with some zeroed |
| `AudioOut.SlotsKept` | src/iad/audio/output.c:157-185 | every step keeps: a sleeping player has an empty slot, the acceptor never queues, what is pending is the newest chunk |
| `AudioOut.OrderKept` | src/iad/audio/output.c:174-184 | every step keeps played frames in strictly increasing chunk order with the pending chunk not among them |
| `AudioOut.BalanceKept` | src/iad/network/output_server.c:75-102 | every step keeps published = played + overwritten + cleared + pending |
| `AudioOut.HeardKept` | src/iad/audio/output.c:174-184 | every step keeps each played frame the chunk's bytes in the standalone build, and in iad, unless the buffer was replaced, empty or the chunk's bytes with some zeroed |
| `AudioOut.RunsAreSafe` | src/iad/audio/output.c:157-185 | all slot invariants hold along every interleaving |
| `AudioOut.NoLostWakeUp` | src/iad/audio/output.c:161-172 | in every reachable state a play thread waiting un-notified has an empty slot and the lock is free; with a chunk in the slot the play thread can move |
| `AudioOut.SignalsWake` | src/iad/network/output_server.c:96-107 | right after a chunk was published or a session ended the play thread is not asleep |
| `AudioOut.NobodyIsStuck` | src/iad/audio/output.c:157-185 | no deadlock: in every reachable state each thread can move whatever it is about to get, or waits for the mutex while the other can move, or has nothing to play |
| `AudioOut.SlotFollowsSession` | src/iad/network/control_server.c:34-47 | the slot names a client exactly between claim and release, the queue wait never blocks, and the control reply is "queued" during a session and "not_queued" otherwise |
| `AudioOut.ChunksPlayInOrder` | src/standalone/audio_daemon.c:61-77 | in every reachable state chunks have been played at most once and in publication order |
| `AudioOut.ChunksAreConserved` | src/iad/network/output_server.c:75-107 | in every reachable state published = played + overwritten + cleared + pending |
| `AudioOut.FailedSendIsRetried` | src/standalone/audio_daemon.c:68-76 | after a failed send in the standalone daemon the chunk is whole and pending; the newest chunk is always pending or played |
| `AudioOut.PublishedAsRead` | src/iad/network/output_server.c:92-98 | over any run the chunks published, followed by the one in hand, are the data of the run's reads, byte for byte and with the number of clients admitted by then |
| `AudioOut.PlayedAsSent` | src/iad/audio/output.c:174-184 | over any run the frames played are the run's successful sends, each of the chunk published last by then, in the session open then |
| `AudioOut.ServedAsAccepted` | src/iad/network/output_server.c:64-107 | over any run the client served is the one accepted last, and the chunks overwritten are those that a publication found in the slot |
| `AudioOut.AdmissionClears` | src/iad/network/output_server.c:75-86 | admitting a client empties iad's slot to the last byte and leaves the standalone daemon's alone |
| `AudioOut.SessionEndsClear` | src/iad/network/output_server.c:100-107 | from the end of the clear to the next admission iad's buffer holds only zeros, unless it was replaced since the last chunk |
| `AudioOut.SessionsAreIsolatedInIadOnly` | src/iad/network/output_server.c:75-107 | over all runs a frame is played only in its own client's session, if and only if the build is iad |
| `AudioOut.AdmissionIsSafeWhenIdle` | src/standalone/audio_daemon.c:120-128 | in every reachable standalone state in which nothing has leaked, admitting a client is followed only by isolated frames until the next admission if and only if no chunk is pending |
| `AudioOut.StandaloneIsolationCondition` | src/standalone/audio_daemon.c:120-145 | a standalone run in which no client is admitted while a chunk is pending keeps sessions apart; over a run that overwrites nothing and leaves nothing pending, only such a run does |
| `AudioOut.FramesAreExactInStandaloneOnly` | src/standalone/audio_daemon.c:61-77 | over all runs every frame carries the bytes its client sent, if and only if the build is the standalone one |
| `AudioOut.ClearCanTear` | src/iad/network/output_server.c:100-102 | for every chunk and every way of zeroing some of its bytes, a reachable iad state in which exactly that frame was played |
| `AudioOut.ClearCanEmptyFrame` | src/iad/network/output_server.c:100-102 | for every chunk, a reachable iad state in which the clear fell between the two reads of the size and the frame was empty |
| `AudioOut.RetryCanPlayGarbage` | src/iad/audio/output.c:96-106 | for every chunk and any contents, a reachable iad state in which the retry played the contents of the replaced buffer |
| `AudioOut.IadFramesAreChunkOrZeros` | src/iad/audio/output.c:174-184 | from a buffer not replaced iad can play a chunk as a given frame if and only if the frame is empty or has the chunk's length with every byte the chunk's or zero |
| `AudioOut.ReplacedFramesAreAnything` | src/iad/audio/output.c:96-106 | from a replaced buffer iad can play a chunk as a given frame if and only if the frame is empty or has the chunk's length |
| `AudioOut.FrameIsExactBeforeClear` | src/iad/network/output_server.c:92-102 | a frame accepted before the client's audio has ended carries exactly the chunk's bytes, unless the buffer was replaced |
| `Pcm.StoredWithoutWrap` | examples/www-example-root/library/recorder.js:180 | a 16-bit store keeps the truncated value if and only if the real lies strictly between -32769 and 32768 |
| `Pcm.QuantiseIsMonotone` | examples/www-example-root/library/recorder.js:177-182 | the WAV quantiser never wraps and never reverses two inputs |
| `Pcm.QuantiseError` | examples/www-example-root/library/recorder.js:179-180 | the error from the clamped input is below 1/32767 from zero up and below 1/32768 under zero |
| `Pcm.QuantiseIsOnto` | examples/www-example-root/library/recorder.js:180 | every 16-bit value is the image of the level it stands for |
| `Pcm.StreamAgrees` | examples/www-example-root/script.js:84-87 | the streaming quantiser differs by at most one step on inputs from -1 up, and not at all from 0 up |
| `Pcm.StreamWrapsBelow` | examples/www-example-root/script.js:85-87 | the streaming quantiser wraps exactly at or below -32769/32767 |
| `Pcm.StreamCanWrap` | examples/www-example-root/script.js:85-87 | -2.0 is streamed as 2 |
| `Riff.LE32RoundTrip` | examples/www-example-root/library/recorder.js:197 | a 32-bit field holds a number modulo 2^32 |
| `Riff.ReadChunkBytes` | examples/www-example-root/library/recorder.js:200-219 | a chunk as written is read as one chunk followed by the rest |
| `Riff.SamplesRoundTrip` | examples/www-example-root/library/recorder.js:177-182 | 16-bit samples come back from their bytes |
| `Riff.WavRoundTrip` | examples/www-example-root/library/recorder.js:190-224 | an independent RIFF reader returns channels, rate and samples exactly while 36 + 2n is below 2^32, and rejects the file otherwise |
| `Riff.WavIsPlain` | examples/www-example-root/library/recorder.js:190-224 | every byte by its position: the four names in characters, both lengths, the format fields and each sample, all little-endian |
| `Riff.ByteRateIsRightForStereoOnly` | examples/www-example-root/library/recorder.js:210-213 | the byte-rate field equals rate times block align if and only if there are two channels |
| `Riff.MonoByteRateIsDoubled` | examples/www-example-root/library/recorder.js:210-213 | every mono file claims twice its bytes a second |
| `Recorder.FlattenOfConcat` | examples/www-example-root/library/recorder.js:152-160 | merging is a homomorphism on chunk lists |
| `Recorder.InterleaveRoundTrip` | examples/www-example-root/library/recorder.js:162-175 | interleaving and splitting are inverse to each other in both directions |
| `Recorder.SetSample` | examples/www-example-root/library/recorder.js:179-180 | writes the two little-endian bytes of one quantised sample |
| `Recorder.FloatTo16BitPCM` | examples/www-example-root/library/recorder.js:177-182 | fills the view with the bytes of all quantised samples in order, leaving what came before |
| `Recorder.WriteFormat` | examples/www-example-root/library/recorder.js:200-215 | the format fields make up one format chunk |
| `Recorder.WriteData` | examples/www-example-root/library/recorder.js:216-221 | the data fields and samples make up one data chunk |
| `Recorder.EncodeWav` | examples/www-example-root/library/recorder.js:190-224 | the view holds "RIFF", "WAVE", "fmt " and "data" at 0, 8, 12 and 36, every field at its place in little-endian order, and sample i quantised at 44 + 2i; exactly the WAV bytes |
| `Worker.SinceLastClear` | examples/www-example-root/library/recorder.js:108-144 | the worker's samples are the records after the last clear and nothing before it |
| `Worker.RecordedIsConcatenation` | examples/www-example-root/library/recorder.js:108-144 | what a history records of a channel is its record messages' samples of that channel, in order, and nothing from any other message |
| `Worker.RecorderWorker.constructor` | examples/www-example-root/library/recorder.js:102-106 | after init the worker reflects the empty history |
| `Worker.RecorderWorker.HandleRecord` | examples/www-example-root/library/recorder.js:108-113 | every channel gains its chunk and the kept length stays the summed length of every channel |
| `Worker.RecorderWorker.HandleClear` | examples/www-example-root/library/recorder.js:140-150 | every channel is empty and the kept length agrees |
| `Worker.RecorderWorker.Set` | examples/www-example-root/library/recorder.js:156 | copies a chunk into place; it must fit |
| `Worker.RecorderWorker.MergeBuffers` | examples/www-example-root/library/recorder.js:152-160 | every set is in bounds and the merge is plain concatenation |
| `Worker.RecorderWorker.Interleave` | examples/www-example-root/library/recorder.js:162-175 | the loop computes the interleaving that has an exact inverse |
| `Worker.RecorderWorker.HandleExportWav` | examples/www-example-root/library/recorder.js:115-130 | the file holds both channels of two, otherwise the first channel |
| `Worker.RecorderWorker.HandleGetBuffer` | examples/www-example-root/library/recorder.js:132-138 | one merged array per channel |
| `Worker.RecorderWorker.Handle` | examples/www-example-root/library/recorder.js:82-100 | one message keeps the worker in step with the history |
| `Worker.RecorderWorker.HandleAll` | examples/www-example-root/library/recorder.js:82-100 | after any history the worker holds what it recorded since its last clear |
| `Worker.StereoIsReadBack` | examples/www-example-root/library/recorder.js:115-130 | the samples read from a stereo file, taken apart, are each channel's quantised samples |
| `Worker.ExportMono` | examples/www-example-root/library/recorder.js:102-224 | for every history with one channel the file is the one for that channel, rate and quantised samples since the last clear, byte by byte, and an independent reader gets them back |
| `Worker.ExportStereo` | examples/www-example-root/library/recorder.js:102-224 | the same with two channels, whose samples alternate left, right |
| `Worker.ExportMany` | examples/www-example-root/library/recorder.js:102-224 | for every history with more than two channels the file tells that many channels and holds exactly the quantised samples of the first |
| `Worker.OnlyTwoChannelsFit` | examples/www-example-root/library/recorder.js:120-125 | reading the exported file gives as many samples as were recorded if and only if there are at most two channels or nothing was recorded |
| `Callbacks.MatchedKept` | examples/www-example-root/library/recorder.js:235-281 | every step keeps as many callbacks waiting per command as requests of it on their way, so pop finds one |
| `Callbacks.AccountedKept` | examples/www-example-root/library/recorder.js:235-281 | every step keeps callbacks handed over = called + waiting |
| `Callbacks.TruthfulKept` | examples/www-example-root/library/recorder.js:108-144 | every step keeps each reply equal to what was recorded before its request |
| `Callbacks.RoutedKept` | examples/www-example-root/library/recorder.js:235-240 | every step keeps: all replies so far reached their own callers if and only if each found one callback waiting |
| `Callbacks.CallbacksAreConserved` | examples/www-example-root/library/recorder.js:235-281 | in every reachable state pop is never on an empty list and every callback is waiting or was called, once |
| `Callbacks.QuietMeansAllCalled` | examples/www-example-root/library/recorder.js:235-281 | once the queues are empty every callback has been called exactly once |
| `Callbacks.StandstillMeansAllCalled` | examples/www-example-root/library/recorder.js:235-281 | the page can always post; in every reachable state worker or page has something to do, or every callback has been called exactly once |
| `Callbacks.StateTellsTheRun` | examples/www-example-root/library/recorder.js:82-281 | over any run, from its steps alone: what was posted; that deliveries answer the requests handled in the order of posting, each calling a callback of the same command; and that the worker can go on exactly while a message is left, the page while a reply is |
| `Callbacks.NewestIsCalled` | examples/www-example-root/library/recorder.js:235-240 | however many callbacks wait, a reply calls the one handed over last among all of its command that have not been called |
| `Callbacks.RepliesAreTruthful` | examples/www-example-root/library/recorder.js:132-138 | a reply carries what was recorded by the messages posted before its request, however late it is handled |
| `Callbacks.RepliesReachTheirCallers` | examples/www-example-root/library/recorder.js:235-240 | over any run every reply reaches its own caller if and only if every delivery found one callback of its command waiting |
| `Callbacks.RepliesReachPatientCallers` | examples/www-example-root/library/recorder.js:258-281 | a run posts each request only while no callback of its command waits, if and only if every reply reaches its own caller and at most one callback per command is left waiting |
| `Callbacks.PopCanMisroute` | examples/www-example-root/library/recorder.js:236 | a reachable state in which the first request's reply went to the second caller |
| `Resampler.RoundVersusCeil` | examples/www-example-root/script.js:16-26 | the array length falls short of the number of rounds by at most one |
| `Resampler.SourceIndexIsNearest` | examples/www-example-root/script.js:21-23 | a slot takes a sample if and only if that lies within half a step of its exact position, the later one of two equally near |
| `Resampler.SourceIndexIsMonotone` | examples/www-example-root/script.js:21-25 | later slots never take earlier samples |
| `Resampler.SameRate` | examples/www-example-root/script.js:11-13 | at equal rates the general rule would also be the identity |
| `Resampler.Resample` | examples/www-example-root/script.js:10-28 | the result has round(n*t/s) slots, the loop runs once for each offset before the end and stores to each slot once and in order, and each slot holds its nearest sample, or NaN if that lies past the input; at equal rates the result is the input itself |
| `Resampler.ReadsPastFrom` | examples/www-example-root/script.js:23 | a slot reads past the input if and only if it is at or after a given slot |
| `Resampler.FewReadsPast` | examples/www-example-root/script.js:16-26 | at most (s+t) div (2s) kept slots read past the input, none when downsampling |
| `WebClient.Client.WsCallback` | src/web_client/web_client.c:33-60 | a WebSocket callback changes count, socket and daemon traffic as one step of the specification |
| `WebClient.Client.Reserve` | src/web_client/web_client.c:90-97 | grows the buffer to what is needed and keeps its contents; the buffer is lost if and only if it had to grow and realloc failed |
| `WebClient.Client.Append` | src/web_client/web_client.c:88-104 | a body part is written whole and the buffer emptied, unless realloc failed; then nothing is written |
| `WebClient.Client.HttpCallback` | src/web_client/web_client.c:63-121 | an HTTP callback is one step of the specification and refuses other paths; the client keeps its buffer if and only if no needed realloc failed |
| `WebClient.Client.HandleAll` | src/web_client/web_client.c:33-121 | over any callback sequence with successful realloc the statics and the daemon traffic are those of the specification, whose theorems therefore hold of them |
| `WebClient.CountIsLive` | src/web_client/web_client.c:35-37 | the counter is establishes minus closes after any callbacks |
| `WebClient.OpenIffConnected` | src/web_client/web_client.c:33-121 | the daemon socket is open if and only if some callback opened it and none has closed it since, said over the callbacks alone |
| `WebClient.SocketIsFromItsOpener` | src/web_client/web_client.c:35-85 | the socket in use is the one that the callback which opened it got, the first to open while none was open |
| `WebClient.SocketsAreBracketed` | src/web_client/web_client.c:38-54 | no second open, no use after close, each opened socket closed once or current, for all callback sequences |
| `WebClient.DaemonGetsWhatIsDelivered` | src/web_client/web_client.c:43-47 | the bytes written are exactly the payloads and bodies received while connected, in order |
| `WebClient.CapacityIsLargestBody` | src/web_client/web_client.c:90-97 | the capacity is the larger of 1280 and the largest body received while connected, and never decreases |
| `WebClient.CapacityInBytes` | src/web_client/web_client.c:90-97 | the buffer has 1280 bytes at first, is enough for every body part received while connected, and is larger only if one of these has just that size |
| `WebClient.SessionCarriesEverything` | src/web_client/web_client.c:43-104 | between an open point and the next closing callback the daemon gets one write per payload on one socket |
| `WebClient.IdleLosesEverything` | src/web_client/web_client.c:43-104 | with no connection open or opened nothing reaches the daemon |
| `WebClient.CompletionCutsWebSockets` | src/web_client/web_client.c:107-114 | HTTP completion closes the socket whatever WebSockets remain, and their audio is lost until the next open |
| `WebClient.OpenWebSocketCanBeSilent` | src/web_client/web_client.c:107-114 | a run with one open WebSocket whose payload never arrives |
| `Decimal.ValueOfDigits` | src/iad/network/network.c:20 | the digits of a number denote it |
| `Decimal.DigitsSpelled` | src/iad/network/network.c:20 | the character k places from the end is the digit of 10^k, and several digits do not start with 0 |
| `Decimal.AtoiReads` | src/iad/network/network.c:33 | any text, cut into white space, an optional sign, digits and the rest, reads as the number the digits spell with that sign, kept within 32 bits, and as 0 without digits |
| `Decimal.AtoiOfSigned` | src/iad/network/network.c:33 | untruncated decimal text of any 32-bit integer is read back exactly |
| `Decimal.PrintedWhole` | src/iad/network/network.c:19-20 | the ten-byte buffer holds the whole text if and only if the value is in -99999999..999999999 |
| `Decimal.PrintThenParse` | src/iad/network/network.c:17-41 | printing and reading back undo each other if and only if the value is in that range |
| `Decimal.FirstValuesCut` | src/iad/network/network.c:17-41 | 1000000000 and -100000000 do not survive printing and reading back |
| `Control.Server.GetVariableValue` | src/iad/network/network.c:17-29 | the printed value of a known variable, nothing for an unknown one |
| `Control.Server.SetVariableValue` | src/iad/network/network.c:31-41 | sets the named variable only; fails for an unknown name |
| `Control.Server.HandleControlClient` | src/iad/network/control_server.c:19-81 | reply and new variables for every message, in literal texts: "queued" or "not_queued" to the integer 2; for a GET the value or RESPONSE_UNKNOWN_VARIABLE; for a SET RESPONSE_OK or RESPONSE_ERROR; missing words; RESPONSE_ERROR to anything else; nothing on a closed connection; an overrun if and only if a word has 100 characters or more |
| `Control.Server.HandleAll` | src/iad/network/control_server.c:120-138 | over any messages the variables are those of the history, unless some message overran a buffer |
| `Control.LatestSetIsHeld` | src/iad/network/control_server.c:63-75 | after any history each variable holds what its own latest SET said |
| `Control.ParseRendered` | src/iad/network/control_server.c:50-66 | every well-formed request is recovered from its text, whatever the uninitialised buffers held |
| `Control.SetThenGet` | src/iad/network/control_server.c:50-75 | a number that was set comes back as the same text if and only if it is in range, whatever came before or in between |
| `Config.ConformsIffSchema` | src/iad/utils/config.c:87-233 | the nested attribute tables say the same as the flat list of required paths |
| `Config.ConformsInPlainTerms` | src/iad/utils/config.c:96-233 | the tables ask for exactly the attributes written out, each under its name and of its kind |
| `Config.LookupIsFirst` | src/iad/utils/config.c:170-225 | a lookup gives the first member of exactly that name, and nothing only if there is none |
| `Config.ValidateNested` | src/iad/utils/config.c:188-196 | accepts exactly when every listed key is present with its kind |
| `Config.ValidateSection` | src/iad/utils/config.c:181-209 | accepts exactly when every attribute of the section is complete, whatever the read past the output table's end gives |
| `Config.ValidateNetwork` | src/iad/utils/config.c:211-232 | accepts exactly when the network object has a text for each of the three paths |
| `Config.ValidateJson` | src/iad/utils/config.c:87-233 | accepts a tree if and only if it exists and meets the schema, the flat one and the one written out attribute by attribute, whatever the read past the output table's end gives |
| `Config.AcceptedLookupsSucceed` | src/iad/utils/config.c:382-392 | in an accepted file every lookup of a required key is non-null and of its kind, socket paths included |
| `Settings.FrameShare` | src/iad/utils/utils.c:54-56 | 25 frames never exceed a second's samples, and make it up exactly for rates divisible by 25 |
| `Settings.Initialize` | src/iad/audio/input.c:33-102 | for every JSON tree, in numbers: volume -30 to 120, gain 0 to 31 or else 25, at most one channel, one of seven rates or else 48000 with a 25th of it per frame, 16 bits and mono, each the file's where in range and its default otherwise; none if a text attribute is no text |
| `Settings.InitializeAudioInput` | src/iad/audio/input.c:33-102 | for every JSON tree input starts as AI_attributes says: enabled or not, ids or else 0, settings with defaults 100 and 40, frame depth or else 40 |
| `Settings.InitializeAudioOutput` | src/iad/audio/output.c:50-98 | the same for AO_attributes, with defaults 90 and 20, and a frame size or else 1280 |
| `Settings.AcceptedTextsReadable` | src/iad/utils/config.c:105-140 | an accepted file never stops the initialisers at a text attribute |
| `Settings.SettingsDefaultsCondition` | src/iad/audio/input.c:33-102 | the settings of a device are the defaults if and only if sample rate, volume, gain, channel count and frame number are each missing, out of range or the default |
| `Settings.InputDefaultsCondition` | src/iad/iad.c:69-90 | input starts with all its defaults, enabled state, ids and frame depth included, if and only if every attribute read for it changes nothing, whether or not the file was accepted |
| `Settings.OutputDefaultsCondition` | src/iad/iad.c:69-90 | the same for output, where a frame size that is no number changes nothing |
| `Settings.PathDefaultCondition` | src/iad/network/network.c:43-64 | a path fits its buffer, and is the default if and only if the file has no text for it or that very path |
| `Settings.PathsSpelledOut` | src/iad/network/network.c:43-64 | which path of the file serves which server, cut to 31 characters, and the default name of each |
| `Settings.RefusedFileStillCounts` | src/iad/iad.c:69-75 | a refused file whose volume is used all the same |

## Left out

- Vendor IMP calls, cJSON parsing, libwebsockets and socket set-up: foreign code, represented by outcomes passed in as parameters.
- Shutdown, signal handlers, the stop flag, daemonising and PID files: the concurrency models cover runs before shutdown.
- `iac` and `audioplay`: copy loops that would only add easy concatenation facts.
- Command lines, logging, user interface and real-time behaviour.
- ClientList.Clients.HandleClient: the free that follows a failed thread creation falls between two visits of a pass, not inside the removal of one cell.
- ClientList.Clients.Serve: events happen one after the other; passes that fall inside an arrival are in `HandleClient`. What the code does after a failed thread creation is undefined and not followed further.
- FanOut: each frame is handed to one thread and `pthread_create` succeeds; the failing branch is in `ClientList.Clients.Abort`. A write that returns zero or more counts as delivered. Removed sockets are not closed by the code, and nothing is claimed about them.
- AudioOut: the device takes a frame from its first byte to its last; the device and buffer are initialised before the first client, and replacing the buffer keeps its size and leaves the old one allocated, as the code does.
- OutputSlot.SharedSlot.Publish: a chunk is at most as long as the buffer, as the read that produces it is bounded by the same frame size.
- Recorder.FloatTo16BitPCM: samples are exact reals; a 32-bit float times 32768 or 32767 is exact in a double, and NaN is not represented.
- Worker.RecorderWorker.HandleRecord: one `init` per worker, and each recording message carries one array per channel, all of one length, as the audio node delivers them.
- Callbacks: a caller without a callback is refused by the page before anything is posted, so every request has one.
- Resampler.Resample: exact rationals; the rounding drift of repeated double addition is not represented. Rates are positive integers.
- WebClient.Client.HttpCallback: writes are complete, and the POST path is what the library copies into its buffer. What the code does with a null buffer after a failed reallocation is not followed further.
- Control.Server.HandleControlClient: stack bytes past those given in `stale` count as zero; a word of 100 bytes or more overruns its buffer; that is reported and what follows is not modelled. Failed replies are ignored, as in the code.
- Decimal.Atoi: C leaves numbers outside the integer range undefined; here they stick to the nearest end.
- Config.ValidateJson: the original indexes the output attribute table with the input loop's index, past its end; the model takes any string for what lies there, and not a read that faults. Its inner loops and its last part are separate methods here.
- Settings.Initialize: frame duration is the exact 0.040; the two device initialisers share one method that takes their section and defaults, and a failing device call, which ends the program, is not represented.
