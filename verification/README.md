# GamingAnywhere: verified model of its buffers and protocols

GamingAnywhere streams a game: a capture thread grabs frames, a filter converts them, encoders compress
them, and RTSP connections carry them to clients, which send input events back. Codecs, windows and
sockets belong to libraries. This project models the hand-written code between them in Dafny and proves
what it is for. `dafny verify dfyconfig.toml` checks everything.

| file | what it is about |
|---|---|
| `Bytes.dfy` | bytes, concatenation, evenly spaced cells |
| `RtspRecords.dfy`, `RtspReader.dfy` | what a record of an RTSP connection is (section 10.12 of RFC 2326), and the sliding read buffer that finds records in any chunking |
| `RtspWriter.dfy`, `RtspInterleaving.dfy` | the re-framer, with writes that may fail; all streams of a connection writing at once |
| `RtspCommands.dfy` | the command handlers against Appendix A.2 of RFC 2326 |
| `EncoderLifecycle.dfy`, `EncoderShutdown.dfy` | starting, feeding and stopping the shared encoder threads under a read/write lock and the clients' writer mutexes |
| `EncoderRuns.dfy`, `EncoderRounds.dfy`, `EncoderProgress.dfy`, `EncoderSlots.dfy` | reachable states; who is sent a packet; exactly when the protocol can deadlock, and when two generations of threads can overlap |
| `FramePool.dfy`, `FramePath.dfy` | the two linked lists of a pipe; capture, filter and encoder over two pipes |
| `ControlQueue.dfy`, `ControlFraming.dfy` | the ring of control messages, and the TCP loop that fills it |
| `AudioBuffer.dfy`, `AudioEncoder.dfy` | captured audio on its way into codec frames |
| `VideoPts.dfy` | time stamps of video frames |
| `AccessUnits.dfy`, `AudioDrain.dfy` | the client's video assembly and audio output |
| `GdiCapture.dfy` | the upside-down copy of a screen |

How things are modelled:

- Objects that change in place are classes over arrays and linked nodes. Each method is proved against a
  specification function or a ghost history, and the results are proved about those.
- Threads are interleavings of atomic steps: one `write`, one pool operation, or one acquisition, release or
  unprotected access of the encoder lock and its data. A run is any sequence of steps. Where only one other
  thread can interfere, a method takes what that thread does meanwhile as a parameter.
- Sockets, clocks, codecs and the window system are parameters or free choices. Ghost fields such as
  `accepted`, `delivered`, `stored` and `submitted` record history and are never read by the code.
- `Extent(n, unit)` is `n * unit`, written as repeated addition.

Results that differ from what the code seems to promise, each with its exact condition:

- The controller's TCP loop does not reset `bufhead` before it receives more
  (ga/core/controller.cpp:406-423). It is right for every continuation exactly when no receive leaves part of
  a message behind a complete one (`RightExactlyWhenOrderly`); otherwise a wrong continuation is built.
- The shared encoders can deadlock. A payload write that fails leaves the client's writer mutex locked
  (ga/core/rtspserver.cpp:118-120); the next thread that wants it waits there holding the read lock, and no
  client is registered or unregistered again (`StuckInRun`). Ordinary departures are enough when two threads
  send, video and audio say: the socket is closed before the client waits for the write lock
  (ga/core/rtspserver.cpp:1069-1071), so one thread's payload can fail while the other waits for the mutex.
  And sockets block without a time limit (ga/core/rtspserver.cpp:75-78): a TCP client that stops reading keeps
  the thread that writes to it in `write`, with the read lock, while other clients wait to be registered
  (`StalledStays`). A connection inside registration, unregistration or its exit, or a thread it waits for, can
  always step exactly when nothing is sent, or one thread sends, payload writes fail on closed sockets only, and
  no client stops reading (`ProgressExactly`).
- Sends to a closed socket happen in every configuration that sends (`WritesToClosedExactly`).
- PLAY, PAUSE and TEARDOWN compare the session id even when there is none
  (ga/core/rtspserver.cpp:734, 782, 808); `UndefinedExactly` gives the histories that reach it.
- READY may have no session (`ReadyWithoutSession`), after a SETUP that failed; a session survives SETUP
  exactly when it succeeds (`SessionAfterSetup`).
- A failed payload write returns with the writer mutex held (ga/core/rtspserver.cpp:118-120): the contract of
  `WriteBindata` says exactly when.
- A frame of 65533 to 65535 payload bytes is written but does not fit the reader's buffer (`FrameIsRecord`).
- SETUP after the first PLAY and PLAY while playing are legal in RFC 2326 and refused here
  (`StricterThanRfc`).
- The FATAL exit of a pool can be reached exactly with fewer than two nodes (`FatalIffTooFewNodes`); the
  programs use eight.
- Generations of encoder threads can overlap exactly when a started thread has no joined slot
  (`OneGenerationExactly`). The periodic server starts one video encoder and, except on Apple systems, an
  audio encoder (ga/server/periodic/ga-server-periodic.cpp:92-99), so there the condition comes down to
  `ENABLE_AUDIO` being defined.
- Byte and frame counts of an audio buffer stay in step exactly when a frame is a whole number of bytes
  (`InStepExactly`, `TwoFillsBreak`).
- The client cuts off decoded sound that does not fit its buffer, and puts in silence without looking for
  room (ga/client/rtspclient.cpp:413): `FetchExactly` and `Overruns` say exactly when.
- A control ring too small for one slot is made and cannot be used (`ControlQueue.Queue.constructor`).

## Model

| member | source | states |
|---|---|---|
| `RtspRecords.NextRecordExact` | ga/core/rtspserver.cpp:211-235 | The splitter yields a record exactly when the stream starts with one (a line up to its line feed, or a `$` frame of 4 + length bytes, within the buffer sizes), and then that record and the rest. |
| `RtspRecords.LineInFront` | ga/core/rtspserver.cpp:140-175 | In plain bytes: a text line is read up to its first line feed (10), exactly if the read buffer and the caller's have room for it. |
| `RtspRecords.FrameInFront` | ga/core/rtspserver.cpp:177-209 | In plain bytes: a frame is `$` (36), a channel, the payload's length, high byte first, and the payload; it is read whole exactly if it fits the read buffer. |
| `RtspRecords.SplitAllInverse` | ga/core/rtspserver.cpp:177-235 | Unique parsing: any list of records followed by bytes that start no record splits into exactly that list and those bytes. |
| `RtspRecords.SplitAllSound` | ga/core/rtspserver.cpp:140-235 | The records read and the bytes that fail are together the stream, and each of them is a record. |
| `RtspReader.Socket.Read` | ga/core/rtspserver.cpp:128-138 | A socket hands out any positive number of the bytes that are next in the stream; nothing only at its end. |
| `RtspReader.RtspContext.ReadInternal` | ga/core/rtspserver.cpp:128-138 | Appends what the socket gives, so that buffered plus unsent bytes stay the same stream; fails exactly at end of stream. |
| `RtspReader.RtspContext.ReadText` | ga/core/rtspserver.cpp:140-175 | Returns the line the pure splitter finds in the unread stream, wherever reads are cut, and fails when the splitter does. |
| `RtspReader.RtspContext.ReadBinary` | ga/core/rtspserver.cpp:177-209 | Returns the frame the pure splitter finds, wherever reads are cut, although the loop may look at a length field that has not arrived. |
| `RtspReader.RtspContext.GetNext` | ga/core/rtspserver.cpp:211-235 | Chunking independence for one record: result and remaining stream depend on the stream alone. |
| `RtspReader.RtspContext.ReadAll` | ga/core/rtspserver.cpp:211-235 | Chunking independence for a connection: successive records are those of the pure splitter, up to the same failure. |
| `RtspWriter.FrameIsRecord` | ga/core/rtspserver.cpp:109-112 | A re-framed packet is one record for the reader exactly when its length fits sixteen bits and frame and header fit the read buffer. |
| `RtspWriter.MuxedPacket` | ga/core/rtspserver.cpp:94-104 | A packet of a muxed buffer is its length in four bytes, the highest first, and its data. |
| `RtspWriter.Connection.WriteFrame` | ga/core/rtspserver.cpp:109-121 | With any write allowed to fail: the wire gains the whole frame, or a proper prefix of it; the mutex stays locked exactly when the header went out and the payload did not. |
| `RtspWriter.Connection.WriteBindata` | ga/core/rtspserver.cpp:87-126 | The wire gains one frame per non-empty packet in order and the call returns the buffer length; on a failed write it returns the offset of the packet concerned, and the mutex comes back locked exactly when a complete header is out. |
| `RtspInterleaving.InterleavedRoundTrip` | ga/core/rtspserver.cpp:87-126 | Any number of streams, any interleaving of single writes: the reader's splitter gets back exactly the payloads written, in order, each tagged with twice its stream number. |
| `RtspInterleaving.StreamsInOrder` | ga/core/rtspserver.cpp:87-126 | Each stream's share of what is read is a prefix of its non-empty packets, all of them when its calls have returned, and each call returned its buffer's length. |
| `RtspInterleaving.SomeThreadMoves` | ga/core/rtspserver.cpp:113-121 | While all writes succeed and a thread has calls to make, it or the mutex holder can step. |
| `RtspInterleaving.AloneLikeWriteBindata` | ga/core/rtspserver.cpp:87-126 | A thread run by itself puts the same frames on the wire as the method proved for one call, and returns the same. |
| `RtspCommands.Connection.NewAvStream` | ga/core/rtspserver.cpp:484-582 | The three slots of a stream are filled together with the objects returned, or nothing changes when the stream exists or an object cannot be made; a rejected header leaves them filled and reports failure. |
| `RtspCommands.Connection.CmdSetup` | ga/core/rtspserver.cpp:584-724 | SETUP is answered 200 exactly when path, state, session, transport and addresses are in order, the stream is new and the library opens it; then the session is the client's own or the one drawn, and the stream's slots hold the request's transport and the three objects returned, other slots being as they were. All error exits are as the specification function says. |
| `RtspCommands.Connection.GiveUp` | ga/core/rtspserver.cpp:707-721 | The shared error exit drops the session and the stream's slots and nothing else. |
| `RtspCommands.Connection.CmdPlay` | ga/core/rtspserver.cpp:725-771 | PLAY is answered 200 exactly for the client's own session in READY or PAUSE, and changes only the state; another session is answered 454, an absent one is an undefined comparison, not an answer. |
| `RtspCommands.Connection.CmdPause` | ga/core/rtspserver.cpp:773-797 | PAUSE is answered 200 exactly for the client's own session in PLAYING, and changes only the state; another session is answered 454, an absent one is an undefined comparison. |
| `RtspCommands.Connection.CmdTeardown` | ga/core/rtspserver.cpp:799-818 | TEARDOWN is answered 200 exactly for the client's own session, in any state, and changes only the state; another session is answered 454, an absent one is an undefined comparison. |
| `RtspCommands.Connection.ServeCommands` | ga/core/rtspserver.cpp:1046-1065 | The command loop handles commands in order and stops at the one that tears the session down. |
| `RtspCommands.HandleInv` | ga/core/rtspserver.cpp:584-818 | Every command keeps: slots of a stream set or clear together; IDLE has no session; PLAYING and PAUSE have one; a session means some stream is set up. |
| `RtspCommands.SessionAfterSetup` | ga/core/rtspserver.cpp:629-724 | A SETUP that passes the path and state checks leaves a session exactly when it is answered 200. |
| `RtspCommands.ReadyWithoutSession` | ga/core/rtspserver.cpp:502-506 | READY does not imply a session: setting the same stream up twice is answered with an error, drops the session and stays READY. |
| `RtspCommands.SessionFromAnswers` | ga/core/rtspserver.cpp:629-724 | Over any run, the answers to its SETUPs decide which session a client has: the one drawn for the first one answered 200 since the last one refused for session, transport or address. |
| `RtspCommands.OwnSessionOnly` | ga/core/rtspserver.cpp:634-644 | After any run, a SETUP, PLAY, PAUSE or TEARDOWN answered 200 names the session drawn by the SETUP that created it, which stays; only a SETUP of a client without a session names none, and gets the one drawn. |
| `RtspCommands.OtherSessionRefused` | ga/core/rtspserver.cpp:639-644 | After any run, a SETUP that gets as far is answered 454 exactly if it names another session than the client's, and the session is then given up; PLAY, PAUSE and TEARDOWN are answered 454 exactly if they name another session or another object. |
| `RtspCommands.UndefinedExactly` | ga/core/rtspserver.cpp:734-737 | The histories that end in comparing an absent session id: PLAY, PAUSE or TEARDOWN for the right object, without a session by those answers. |
| `RtspCommands.RfcSimulation` | ga/core/rtspserver.cpp:1046-1064 | A command answered 200 is a transition of Appendix A.2 of RFC 2326 on the abstract states; any other answer leaves the state. |
| `RtspCommands.RfcSimulatesRun` | ga/core/rtspserver.cpp:1046-1064 | Whatever a client sends, the commands answered 200 are a run of the table of Appendix A.2, ending in the server's abstract state. |
| `RtspCommands.StricterThanRfc` | ga/core/rtspserver.cpp:624-628 | The converse fails exactly for SETUP once the client has played (or is torn down) and for PLAY while playing: allowed by Appendix A.2, answered 455. |
| `RtspCommands.FrozenOncePlayed` | ga/core/rtspserver.cpp:584-818 | From the first PLAY on, no sequence of commands changes anything but the state: session id and stream slots are frozen. |
| `RtspCommands.OneSessionPerRun` | ga/core/rtspserver.cpp:1046-1064 | In any run from the start, all moments at which the client plays or pauses have one and the same session id. |
| `EncoderLifecycle.StepInv` | ga/core/encoder-common.cpp:92-228 | Every step of every connection and encoder thread keeps the system invariant; a send is its own steps, under the client's writer mutex, and the quit path closes the socket before it unregisters. |
| `EncoderLifecycle.RunInv` | ga/core/encoder-common.cpp:92-228 | The system invariant holds throughout every run. |
| `EncoderShutdown.RegistrationAgrees` | ga/core/encoder-common.cpp:92-171 | Between commands a client is registered exactly in PLAYING or PAUSE; from the end of its command loop on, exactly while it has played and not unregistered; with the lock free, threads are launched exactly when somebody is registered. |
| `EncoderShutdown.LaunchesAreFresh` | ga/core/encoder-common.cpp:96-118 | Only a client's first PLAY starts threads, only when none is alive and the clock reset is pending; PLAY after PAUSE never does. |
| `EncoderShutdown.OneGenerationAlive` | ga/core/encoder-common.cpp:96-163 | Encoder threads of two launches are never alive together. |
| `EncoderSlots.OneGenerationExactly` | ga/core/encoder-common.cpp:99-162 | That holds of all reachable states exactly when every thread that is started has a slot that is joined; otherwise a run in which two launches overlap is built. |
| `EncoderShutdown.NoSendToDeparted` | ga/core/encoder-common.cpp:209-228 | A client being sent to is registered, was PLAYING when picked, has not freed its streams, and its slots are those first seen, set or clear together; its socket is closed exactly when it waits to unregister. |
| `EncoderRounds.EveryClientServed` | ga/core/encoder-common.cpp:209-228 | In any run, between taking the read lock and giving it back an encoder thread turns to each client registered at the time exactly once, and to nobody else; the packet is sent to it exactly if it plays then. |
| `EncoderRounds.WrittenOverTcp` | ga/core/encoder-common.cpp:173-207 | In any run, an encoder thread that is past making a client's packets writes to a client whose stream is set up over TCP. |
| `EncoderRounds.OpeningExactly` | ga/core/encoder-common.cpp:175-201 | Packets made for a client are then written, under its mutex, exactly if the thread's stream is set up over TCP. |
| `EncoderShutdown.EncoderStepsDown` | ga/module/encoder-video/encoder-video.cpp:126-206 | While the last client waits in join holding the lock, each step of any encoder thread lowers a common measure. |
| `EncoderShutdown.JoinIsBounded` | ga/core/encoder-common.cpp:154-163 | In any stretch of any run spent in join, the encoder threads take at most three steps per slot and one more. |
| `EncoderShutdown.EncoderMovesExactly` | ga/core/rtspserver.cpp:113-113 | A live encoder thread can take a step exactly when it waits neither for a client's writer mutex that is locked nor, in `write`, for a client that has stopped reading. |
| `EncoderShutdown.JoinedMoves` | ga/core/encoder-common.cpp:154-163 | While the last client waits in join, every live encoder thread can take a step. |
| `EncoderProgress.RunSending` | ga/core/rtspserver.cpp:113-121 | Whoever is between locking and unlocking a writer mutex holds it; while payload writes fail on closed sockets only, a locked mutex without such an owner belongs to a client whose socket is closed. |
| `EncoderProgress.SomebodyMoves` | ga/core/encoder-common.cpp:92-171 | While every awaited writer mutex has its owner and no write waits for a client to read, a connection inside registration, unregistration or its exit, or a thread it waits for, can step. |
| `EncoderProgress.ProgressExactly` | ga/core/encoder-common.cpp:92-228 | In every reachable state such a connection or a thread it waits for can step, if and only if nothing is sent, or one thread sends, payload writes fail on closed sockets only, and no client stops reading; otherwise a run into a deadlock is built. |
| `EncoderProgress.StalledStays` | ga/core/rtspserver.cpp:75-78 | A client that waits for the write lock goes on waiting, whatever step anybody takes, while an encoder thread that holds the read lock writes to a client that has stopped reading: until that client reads again or its own thread closes its socket. |
| `EncoderProgress.StuckInRun` | ga/core/rtspserver.cpp:118-120 | The deadlock is for good: in any run that reaches it, no later step of anybody releases the abandoned mutex, the read lock held by the thread that waits for it, or the client that waits for the write lock. |
| `EncoderProgress.WritesToClosedExactly` | ga/core/rtspserver.cpp:1066-1071 | A thread can be about to write to a socket already closed in every configuration that sends, and in no other. |
| `FramePool.Pipeline.DatapoolInit` | ga/core/pipeline.cpp:105-127 | Builds a free list of exactly n fresh nodes and an empty work list; nothing for a count or size that is not positive. |
| `FramePool.Pipeline.LoadDataUnlocked` | ga/core/pipeline.cpp:189-212 | Takes the eldest stored node, or returns null exactly when none is stored; lists, tail pointer and counters stay right. |
| `FramePool.Pipeline.AllocateData` | ga/core/pipeline.cpp:148-169 | Takes a free node, or steals the eldest stored one; fails exactly when every node is held by some thread. |
| `FramePool.Pipeline.StoreData` | ga/core/pipeline.cpp:171-187 | Appends to the work list; nodes stored are nodes removed plus nodes queued, in order. |
| `FramePool.Pipeline.ReleaseData` | ga/core/pipeline.cpp:214-223 | Returns a held node to the front of the free list. |
| `FramePool.AllocateKeeps` | ga/core/pipeline.cpp:148-169 | Allocation keeps every node in exactly one place: free, stored or held. |
| `FramePool.StoreKeeps` | ga/core/pipeline.cpp:171-187 | Storing a held node keeps every node in exactly one place. |
| `FramePath.RunPools` | ga/module/filter-rgb2yuv/filter-rgb2yuv.cpp:195-242 | In every interleaving of capture, filter and encoder: free, queued and held nodes of each pipe are all its nodes, each once. |
| `FramePath.CapturedAreGrabbed` | ga/module/vsource-desktop/vsource-desktop.cpp:212-237 | What the capture thread has queued, and the picture in its hands, are the pictures grabbed by the capture steps that found a node, in order. |
| `FramePath.LossyFifo` | ga/module/filter-rgb2yuv/filter-rgb2yuv.cpp:195-242 | Time stamps and pictures the encoder reads are an order-preserving subsequence of those grabbed, all converted; frames read, on their way and stolen add up to the grabs that found a node. |
| `FramePath.NothingStolenNothingLost` | ga/core/pipeline.cpp:148-169 | After a run in which no node is stolen, what is delivered and on its way are the time stamps and pictures grabbed, in order. |
| `FramePath.FatalIffTooFewNodes` | ga/core/pipeline.cpp:153-160 | Some interleaving reaches the FATAL exit exactly when the pools have fewer than two nodes. |
| `ControlQueue.Queue.constructor` | ga/core/controller.cpp:65-77 | Makes an empty ring that holds size / (maxunit + 4) - 1 messages, and is usable exactly when there is room for one slot. |
| `ControlQueue.Queue.ReadMsg` | ga/core/controller.cpp:79-93 | Finds the eldest message's slot exactly when there is one, with its size and bytes in place. |
| `ControlQueue.Queue.ReleaseMsg` | ga/core/controller.cpp:95-114 | Drops the eldest message whatever pointer is passed, and does nothing to an empty ring. |
| `ControlQueue.Queue.WriteMsg` | ga/core/controller.cpp:116-145 | Appends a message that fits a slot when there is room, and returns its length; otherwise returns 0 and changes nothing. |
| `ControlQueue.Queue.WriteAll` | ga/core/controller.cpp:116-145 | Stable peek: through any number of writes the eldest message keeps its place and bytes, and the ring refines a bounded queue. |
| `ControlQueue.Queue.ReadNext` | ga/core/controller.cpp:456-478 | Returns and removes the eldest message as it was before any writes in between; -1, still removing it, when it is too long for the caller. |
| `ControlQueue.Queue.Clear` | ga/core/controller.cpp:147-152 | Empties the ring. |
| `ControlQueue.NewestDropped` | ga/core/controller.cpp:133-141 | What is dropped of any messages is what fits no slot, and the newest: of the rest, the first ones there is room for get in. |
| `ControlFraming.Controller.LookInBuffer` | ga/core/controller.cpp:405-446 | One look at the receive buffer, byte for byte: too little, a size of zero, a message still incomplete (copied down, the head left where it was), a message taken, or an access outside the buffer. |
| `ControlFraming.Controller.HandleReceive` | ga/core/controller.cpp:378-447 | A receive and the loop behind it replay what the pure loop replays and leave the same buffer, head and length. |
| `ControlFraming.SentIsMessage` | ga/module/ctrl-sdl/ctrl-sdl.cpp:111-120 | What a client sends is a message: its size, high byte first, and the rest. |
| `ControlFraming.ReceiveSplits` | ga/core/controller.cpp:405-446 | A receive that leaves nothing behind a complete message is cut into exactly the messages it completes, with room for the next. |
| `ControlFraming.OrderlyRun` | ga/core/controller.cpp:378-447 | Over any run of such receives, exactly the messages sent are replayed, in order, without an access outside the buffer. |
| `ControlFraming.OrderlyStream` | ga/core/controller.cpp:378-447 | In such a run the messages replayed and the pending bytes are together the received stream. |
| `ControlFraming.RightExactlyWhenOrderly` | ga/core/controller.cpp:376-424 | After a receive, every way the next message may be completed is handled right exactly when the receive did not leave part of a message behind a complete one. |
| `AudioBuffer.InStepExactly` | ga/core/asource.cpp:74-167 | Whatever is filled and read, in every buffer, the contents stay in step with the frames counted, if and only if a frame is a whole number of bytes. |
| `AudioBuffer.TwoFillsBreak` | ga/core/asource.cpp:82-102 | Otherwise two equal fills break it in any buffer with room for eight frames. |
| `AudioBuffer.BytesAddUp` | ga/core/asource.cpp:82-82 | Frame counts can be turned into byte counts piecewise exactly when a frame is a whole number of bytes. |
| `AudioBuffer.BufferInit` | ga/core/asource.cpp:42-72 | No buffer for a chunk size, channel count or sample size of zero; otherwise an empty one of four chunks. |
| `AudioBuffer.Buffer.FillOne` | ga/core/asource.cpp:74-114 | In any format, a chunk is accepted whole behind all earlier ones, zeros for a null pointer, and its frames counted; or dropped exactly when it exceeds the free space at both ends. The retry loop runs at most twice. |
| `AudioBuffer.Buffer.FillAll` | ga/core/asource.cpp:117-126 | Contents and counts after any chunks are those of the chunks filled in one after the other. |
| `AudioBuffer.FittingChunksStay` | ga/core/asource.cpp:82-114 | Chunks that fit the free space together are all taken, in order, and all their frames counted. |
| `AudioBuffer.Buffer.CopyOut` | ga/core/asource.cpp:151-162 | In any format, the frames taken leave at the front and all fields that count change as specified; `sound` says exactly whether the copy stays on bytes held and leaves none behind the last frame, as always with counts in step. |
| `AudioBuffer.Buffer.Read` | ga/core/asource.cpp:128-167 | In any format: a reader of an empty buffer finds what the chunks that came while it waited leave there, and gets as many frames as asked or all there are; `sound` says exactly whether the bytes copied are bytes held, and with the last frame all of them, as always with counts in step; then they are the next accepted ones in order. |
| `AudioEncoder.Encoder.Stamp` | ga/module/encoder-audio/encoder-audio.cpp:195-212 | The stamp becomes the greater of the old one and the clock's; the first one is the synchronised start. |
| `AudioEncoder.Encoder.Submit` | ga/module/encoder-audio/encoder-audio.cpp:217-281 | One codec frame is submitted with the current stamp, and the stamp advances by its length. |
| `AudioEncoder.Encoder.Chop` | ga/module/encoder-audio/encoder-audio.cpp:216-288 | A complete frame is submitted, with the current stamp, and nothing otherwise; submitted pieces plus pending bytes are what they were. |
| `AudioEncoder.Encoder.Turn` | ga/module/encoder-audio/encoder-audio.cpp:183-289 | A turn reads what is missing from a codec frame, or all there is, and submits one piece exactly when that completes a frame. Its stamp is the start for the first read, else the greater of the last stamp and the clock's, less the frames read now and first. Submitted pieces plus pending bytes are exactly the bytes read. |
| `AudioEncoder.Encoder.Run` | ga/module/encoder-audio/encoder-audio.cpp:183-289 | Over any number of rounds, with chunks arriving between turns and while the encoder waits: what is accepted, how many pieces are submitted and how much is pending are those of the rounds one by one, and pieces, pending and buffered bytes are together the accepted bytes. |
| `AudioEncoder.SpacedApart` | ga/module/encoder-audio/encoder-audio.cpp:210-212 | Any two submitted stamps differ by at least the frames between them. |
| `Bytes.PieceAt` | ga/module/encoder-audio/encoder-audio.cpp:217-281 | Pieces of one size laid end to end are the stream cut at multiples of that size. |
| `VideoPts.Stamp` | ga/module/encoder-video/encoder-video.cpp:151-189 | The k-th stamp is the greatest over j up to k of start + capture time j - first capture time + (k - j); if capture times increase, it is just the capture time, shifted. |
| `VideoPts.PeaksIncrease` | ga/module/encoder-video/encoder-video.cpp:182-187 | Such stamps strictly increase and are never below the wanted ones. |
| `VideoPts.StampsAreLeast` | ga/module/encoder-video/encoder-video.cpp:151-189 | The closed form is exactly the least strictly increasing sequence not below the wanted stamps. |
| `AccessUnits.DecoderBuffer.PlayVideo` | ga/client/rtspclient.cpp:322-370 | One network buffer, byte for byte: what a new time stamp, a marker or an overflow hands to the decoder, with which stamp, and what is then pending, in a private buffer never overrun. |
| `AccessUnits.DecoderBuffer.PlaySequence` | ga/client/rtspclient.cpp:322-370 | The same for any sequence of buffers. |
| `AccessUnits.UnitsOfOnePts` | ga/client/rtspclient.cpp:340-369 | Units never mix time stamps, and decoded units plus the pending one are the input in order, without empty buffers and those that overflowed. |
| `AccessUnits.UnitsWellCut` | ga/client/rtspclient.cpp:344-362 | Absent overflow, units end only at a marker or where the time stamp changes: none is cut short. |
| `AccessUnits.OverflowEndsUnit` | ga/client/rtspclient.cpp:363-368 | A buffer that overflows ends the unit that was pending, and nothing is pending afterwards. |
| `AudioDrain.PacketQueue.Put` | ga/client/rtspclient.cpp:92-103 | Appends a packet; the size is the sum over the queue. |
| `AudioDrain.PacketQueue.Get` | ga/client/rtspclient.cpp:105-125 | Takes the eldest packet, or reports that there is none; the size is the sum over the queue. |
| `AudioDrain.AudioOut.DecodePacket` | ga/client/rtspclient.cpp:417-521 | The buffer then holds what was left over and the decoded frames, cut off where it ends, and 1024 zero bytes after an error; it is overrun exactly when there is no room for those. |
| `AudioDrain.KeptExactly` | ga/client/rtspclient.cpp:508-513 | A packet's sound is kept whole, and the buffer not overrun, exactly when it fits beside what is left over. |
| `AudioDrain.AudioOut.FillBuffer` | ga/client/rtspclient.cpp:372-524 | Decodes packets in queue order until there are enough bytes and delivers exactly the bytes asked for, or waits when they run out; while nothing has been cut off, what was delivered is a prefix of the concatenated sounds. |
| `AudioDrain.FetchExactly` | ga/client/rtspclient.cpp:398-521 | Nothing is lost exactly when every packet decoded fits; then the call waits exactly when all that has arrived is too little. |
| `AudioDrain.FetchTakes` | ga/client/rtspclient.cpp:398-411 | No packet is decoded before it is needed: with any fewer than those taken, the callback would wait. |
| `AudioDrain.SmallPacketsFit` | ga/client/rtspclient.cpp:508-511 | It is enough that each packet's sound fits the buffer beside the bytes asked for. |
| `AudioDrain.SizesSnoc` | ga/client/rtspclient.cpp:97-100 | A queue's size grows by the packet put. |
| `GdiCapture.Desktop.Capture` | ga/module/vsource-desktop/ga-win32-gdi.cpp:84-124 | Fills the buffer with the rows of the screen or rectangle from the top, leaves the rest alone, and fails exactly when the buffer is too small or the handles are gone. |
| `GdiCapture.Desktop.CopyRows` | ga/module/vsource-desktop/ga-win32-gdi.cpp:101-121 | The rows copied, going upwards through the bitmap, are the rectangle's rows in order. |
| `GdiCapture.TurnedOver` | ga/module/vsource-desktop/ga-win32-gdi.cpp:110-121 | If the bitmap keeps the lines of the screen from the last to the first, row y of a captured rectangle is its part of line top + y of the screen. |
| `GdiCapture.CropOfWhole` | ga/module/vsource-desktop/ga-win32-gdi.cpp:110-121 | A rectangle captured equals the rectangle cut out of the whole screen captured. |

## Left out

- The libraries: encoding, decoding, scaling, container headers and addresses appear as the outcomes they report.
- Allocation failure, pool destruction, private data of pipes, failure of `pthread_create`. A join on a slot with no live thread returns at once.
- Liveness of condition variables in the filter, the controller and the audio reader: waits are modelled, wake-ups are not claimed. The filter's exit when a signalled pipe is empty is a wake-up question too.
- RtspCommands.Connection.CmdPlay: what the server does after comparing an absent session id is undefined; the model goes on with the state unchanged and answers `UNDEFINED`. The same goes for CmdPause and CmdTeardown.
- EncoderProgress.ProgressExactly: is stated for configurations in which every started thread has a joined slot, the exact condition for which is `OneGenerationExactly`. A write to a closed socket may fail or succeed, since its descriptor may have been given to another connection, and replies, which take no mutex, are not among the sends. A `write` that already waits for a client to read is taken to be able to return once that client's socket is closed, although the system may leave it waiting.
- Fairness of the read/write lock and of the scheduler; one round of encoding ends by assumption. `JoinIsBounded` counts steps, not time.
- Fixed destination sizes of read records, and stream numbers of RTSP_CHANNEL_MAX or more.
- RTSP replies, which are written without the writer mutex; the framing results are about `rtsp_write_bindata` callers only.
- Read errors other than end of stream, RTCP packets, header parsing and reply texts.
- Buffers handed to `rtsp_write_bindata` that are not packets laid end to end.
- The floating-point value of `encoder_pts_sync`: any non-negative integer, and the start of the audio and video clocks. `elapsed` is the number of samples that the microseconds of the audio clock come to.
- The map of audio clients behind `audio_source_buffer_fill`: each client's buffer is modelled by itself.
- The encoder lock protocol is a transition system over values, because its point is the interleaving; the update in place of its global maps is not modelled separately.
- Update in place of frame contents between pipes: `FramePath` keeps frames in a map by node, one conversion being one step. The node lists themselves are modelled in place by `FramePool.Pipeline`.
- Several pipes fed by one capture, and more than one encoder on a pipe.
- An encoder that stops on mismatched line sizes or an encoding error; what it submitted before is as stated.
- UDP in the controller, the handshake, and handshake bytes that share a receive with messages.
- Signed and over-long message sizes passed to the ring by other callers: sizes are natural numbers there, kept modulo 65536 as the size field does; the field is little-endian.
- AudioDrain.AudioOut.FillBuffer: a wait is a return, resumed by the next call; what happens after a write outside the buffer is not modelled.
- ControlFraming.OrderlyRun: covers messages of 2 to 8192 bytes and receives that leave nothing behind a complete message, the exact condition being `RightExactlyWhenOrderly`.
- VideoPts.Stamp: requires a first capture time other than -1, the value the original uses for "none yet"; capture times count from the start of capture and are not negative.
- AudioBuffer.Buffer.Read: says exactly when the original would copy bytes the buffer does not hold, or drop bytes behind the last frame; what happens from there on is not modelled. Neither can happen while the counts are in step (`InStepExactly`).
- Rectangles outside the screen, which the window search does not produce.
- Key maps, event replay, rendering, fonts, watchdog, configuration files, module loading, SDP: tables, library calls and text, with no state shared with the code modelled here.
