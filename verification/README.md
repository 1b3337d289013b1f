# A verified model of P2PTransfer's transfer protocol

P2PTransfer moves a file from one machine to another, encrypted, over three data paths: a pipelined
command-line transfer, a streaming path for the local network, and a QUIC path. This project models
those paths and the layers under them in Dafny and proves what they promise for every interleaving,
every fragmentation of the data and every leftover file. `dafny verify dfyconfig.toml` checks it.

A digest is identified by the bytes it was computed from and a ciphertext by its key, nonce and body,
so a streaming hasher is a growing byte sequence and decryption is a comparison; nothing is assumed
about the cryptography beyond that matched pair.

| file | contents |
|---|---|
| `Pipeline`, `PipelineInvariant`, `PipelineTheorems` | the command-line transfer as a step system (producer, encryption tasks, channels, wires, receiver tasks, hashing thread, acks), what every step keeps, and what holds of every run |
| `PipelineNonces` | which frames open, nonces in transit, a frame that does not open, a sender facing any receiver |
| `PipelineWindow`, `PipelineRetries` | what the transfer does not keep, with the runs and the exact conditions, and the bounds it does keep; sessions one after another |
| `CliLoops` | the sender's select loop and the hashing thread as loops, tied to the step system; the sequential receiver |
| `LanReceive`, `LanAttempts`, `LanLoops` | one receive attempt on the local network under every interleaving and failure; series of attempts; the reader, receiver and writer loops end to end, as a run of the step system |
| `LanSendLoop`, `Pause` | the pause and cancel flag and the loop that obeys it, one read of the flag a step |
| `Quic` | the resume and streaming-hash parts of the QUIC path |
| `BoundedPipe`, `RateLimit` | the in-memory pipe with its wakers; the leaky bucket |
| `Files`, `Tiling`, `Resume` | open files and the engine's loops, chunk arithmetic and tiled writes, the transfer table, crashes and resumes |
| `Framing`, `Aead`, `Reorder`, `Basics` | length-prefixed messages and tagged frames, nonces, the reorder buffer, shared vocabulary |

## Where the code does not meet what one would expect

Each of these is a theorem about the code as it is, with the exact condition under which it does well.

- Ctrl-C during a command-line transfer hangs the sender exactly when its select loop is waiting, at that
  moment, with every chunk acknowledged for which the producer has passed its look at the flag
  (`PipelineTheorems.PauseHangsExactlyWhenIdle`): the loop looks at the flag only after it has
  received something, and nothing will come.
- The window of 32 bounds neither the frames in flight nor the sender's memory: while the first chunk is being
  encrypted the table of early frames takes in all the others, and its arrival sends everything at once
  (`PipelineWindow.BufferOverrun`, `PipelineWindow.WindowOverrun`). It holds exactly in sessions of at most 32
  chunks (`PipelineWindow.WindowHoldsExactlyWhenSmall`), and in every run in which the frames reach the sender in
  order (`PipelineWindow.WindowHoldsInOrder`).
- The stored progress counts acks, which come in completion order, and a resume takes it for a prefix of the
  file: the second chunk can be counted while the first is not on disk (`PipelineWindow.CountOvertakes`). The
  chunks counted are on disk at all times exactly in sessions that get at most one frame to the receiver's
  tasks (`PipelineWindow.CountIsPrefixExactlyWhenOneFrame`).
- An undisturbed command-line session succeeds exactly when it starts at chunk 0 and every frame is within
  the 64 MB message limit (`PipelineTheorems.TransferSucceeds`). An uncompressed chunk of more than 64 MB
  less 22 bytes breaks the receiver (`PipelineTheorems.UncompressedCarries`), although the chunker
  allows full 64 MB chunks. The repository's README promises to resume from the last committed byte, but a
  session that resumes past chunk 0 is always refused, because the receiver's hashing thread starts at
  chunk 0 (`CliLoops.ResumedSessionRefused`). Its row is then marked failed, so the session after that
  starts afresh and succeeds when its frames fit (`PipelineRetries.RetriesAfterPause`).
- A session that announces chunks above 64 MB for a file above 64 MB is verified chunk by chunk and
  completes over a wrong file, if compression makes its frames fit: the receiver places chunks by
  the announced size, the sender cuts them by the clamped one (`PipelineTheorems.CompleteMeansSource`,
  `Tiling.OffsetsAgree`).
- The sequential receiver neither truncates nor sets the length, so a longer leftover file makes an
  honest session end in an error (`CliLoops.SlowHonestCompletes`).
- A leftover that is not a whole number of blocks is appended to without being cut back: on the local
  network the attempt fails and deletes the file (`LanAttempts.AttemptVerdict`), so that a second attempt is
  needed and always enough; over QUIC both ends report the same hash over a wrong file when the
  kept prefix is right (`Quic.HashAgreement`).
- A cancelled local-network transfer can still be reported complete exactly when the cancel comes after the
  end of the file has been dequeued, or between the two polls of the select with nothing queued, and the
  file was read without error (`LanSendLoop.CanCompleteExactlyWhenLate`). After a read error the sender
  leaves without a word (`LanSendLoop.ReadErrorIsSilent`).
- Sender byte counts come out wrong for an empty file, for a resume offset off a chunk boundary, and when
  the announced size does not survive the clamp and changes the chunk count
  (`PipelineTheorems.ResumeAccounting`).
- The pipe deadlocks for capacity 0 and no other (`BoundedPipe.DeadlockOnlyAtCapacityZero`).

## Model

| member | source | states |
|---|---|---|
| PipelineTheorems.CompleteMeansSource | desktop/p2ptransfer-cli/src/main.rs:1065-1172 | In every interleaving, from any leftover output file: once COMPLETE has been sent or the sender has succeeded, the hashing thread has consumed exactly the source in order, and the file is the source exactly when both ends place chunks at the same offsets |
| PipelineTheorems.NoFalseAlarm | desktop/p2ptransfer-cli/src/main.rs:705-759 | The receiver breaks only on a frame over the limit and reports a mismatch only for a session resumed past chunk 0; COMPLETE never comes before every ack |
| PipelineNonces.ChunkNoncesDistinct | desktop/p2ptransfer-cli/src/main.rs:656-662 | No two chunks of a session are sealed under one nonce |
| PipelineNonces.NoncesInTransit | desktop/p2ptransfer-cli/src/main.rs:656-1108 | In every reachable state any two frames on the wire, in the receiver's channel or in its decrypting tasks have different nonces |
| PipelineNonces.OpensExactly | desktop/p2ptransfer-cli/src/main.rs:1096-1114 | A frame opens at an index, to its chunk, exactly under the key and nonce prefix that sealed it and at its own index |
| PipelineNonces.TurnedFlagFails | desktop/p2ptransfer-cli/src/main.rs:1109-1113 | A frame whose compression flag has been turned does not open |
| PipelineNonces.UnopenedFrameBreaks | desktop/p2ptransfer-cli/src/main.rs:1105-1176 | A task whose frame does not open writes nothing and ends the session with an error; no COMPLETE is sent from then on |
| PipelineNonces.FrameLength | desktop/p2ptransfer-cli/src/main.rs:662-665 | A frame's length is that of its encoding as a tagged message |
| PipelineNonces.SenderSucceedsExactly | desktop/p2ptransfer-cli/src/main.rs:720-788 | Whatever a receiver answers, an unpaused sender succeeds exactly when every chunk is acknowledged first and the next reply is COMPLETE with the announced checksum |
| PipelineTheorems.Conservation | desktop/p2ptransfer-cli/src/main.rs:706-745 | Frames sent minus acks counted are on the wire, in a channel, in a task, or acks in flight; acks stay behind chunks written, and those behind frames sent, so the window subtraction cannot underflow |
| PipelineWindow.WindowOverrun | desktop/p2ptransfer-cli/src/main.rs:700-719 | Every session has a run in which all its frames are in flight at once |
| PipelineWindow.BufferOverrun | desktop/p2ptransfer-cli/src/main.rs:700-719 | Every session has runs in which the table of early frames holds all but the first chunk, with nothing in flight |
| PipelineWindow.WindowHoldsExactlyWhenSmall | desktop/p2ptransfer-cli/src/main.rs:703-719 | At most 32 frames are ever in flight exactly in sessions of at most 32 chunks |
| PipelineWindow.WindowHoldsInOrder | desktop/p2ptransfer-cli/src/main.rs:703-719 | Where frames reach the sender in order at most 32 are in flight |
| PipelineWindow.BoundsHold | desktop/p2ptransfer-cli/src/main.rs:612-1050 | No channel holds more than its capacity and no more than eight chunks are being encrypted |
| PipelineWindow.TasksAttained | desktop/p2ptransfer-cli/src/main.rs:645-678 | Eight are, in a session that has as many chunks to send |
| PipelineWindow.GuardsAre | desktop/p2ptransfer-cli/src/main.rs:676-709 | What the producer, the select loop and the channels wait for, with the code's numbers |
| PipelineWindow.CountOvertakes | desktop/p2ptransfer-cli/src/main.rs:720-731 | A session whose first two frames fit has a run in which one chunk is counted and its bytes stored while that chunk is not on disk |
| PipelineWindow.CountIsPrefixExactlyWhenOneFrame | desktop/p2ptransfer-cli/src/main.rs:720-731 | The chunks counted are always on disk exactly in sessions that get at most one frame to the receiver's tasks |
| PipelineTheorems.PauseHangsExactlyWhenIdle | desktop/p2ptransfer-cli/src/main.rs:705-759 | However a session goes on after Ctrl-C, once it can go no further the sender is still waiting exactly when, at the moment of Ctrl-C, its select loop was waiting with every chunk acknowledged for which the producer had passed its look at the flag |
| PipelineTheorems.StuckExactlyWhenDrained | desktop/p2ptransfer-cli/src/main.rs:629-759 | An unfinished session can always act, except exactly in the state in which a paused one hangs |
| PipelineTheorems.EarlyPauseHangs | desktop/p2ptransfer-cli/src/main.rs:601-632 | For every session, Ctrl-C before the producer's first look leaves the sender waiting for ever |
| PipelineTheorems.RunsEnd | desktop/p2ptransfer-cli/src/main.rs:645-759 | Every run has at most 16 steps for each chunk to send and 8 more |
| PipelineTheorems.MeasureDecreases | desktop/p2ptransfer-cli/src/main.rs:1088-1172 | Every step of every task lowers the sum of per-chunk pipeline stages |
| PipelineTheorems.TransferSucceeds | desktop/p2ptransfer-cli/src/main.rs:629-791 | A run nobody pauses that cannot continue has the sender succeed, with the row completed under the checksum, exactly when the session starts at chunk 0 and every frame fits; otherwise it fails and the row says so |
| PipelineTheorems.CanAlwaysFinish | desktop/p2ptransfer-cli/src/main.rs:629-791 | From every moment of a session nobody has paused there is a continuation to that end |
| PipelineRetries.TwoSessionsSuffice | desktop/p2ptransfer-cli/src/main.rs:544-578 | From any row and any file, of two undisturbed sessions the second starts afresh and succeeds when its frames fit |
| PipelineRetries.LeftSessionResumes | desktop/p2ptransfer-cli/src/main.rs:544-593 | A fresh session left before the receiver's last word makes the next one start at chunk 0 exactly when no ack was counted or the file is one chunk |
| PipelineRetries.RetriesAfterPause | desktop/p2ptransfer-cli/src/main.rs:544-593 | After such a session the next undisturbed one succeeds exactly when it starts at chunk 0 and its frames fit, else its row is marked failed, and the one after that succeeds when its frames fit |
| PipelineTheorems.AnnouncedSession | p2ptransfer-core/src/transfer/engine.rs:86-106 | The sessions covered are all those announced for any file, requested chunk size and resume offset whose chunk count fits 32 bits, and no others; which of them agree on offsets |
| PipelineTheorems.UncompressedCarries | desktop/p2ptransfer-cli/src/main.rs:652-666 | Without compression every frame fits exactly when the first chunk to send leaves 22 bytes of the message limit free |
| PipelineTheorems.AckLengthSpec | desktop/p2ptransfer-cli/src/main.rs:722-727 | The sender's remainder arithmetic is the chunk's length, except that an empty file counts one whole chunk |
| PipelineTheorems.AcknowledgedBytes | desktop/p2ptransfer-cli/src/main.rs:721-735 | The counted bytes are whole chunks up to the last one, which counts its remainder |
| PipelineTheorems.SenderAccounting | desktop/p2ptransfer-cli/src/main.rs:721-735 | In every reachable state byte count and stored progress are whole chunks beyond the offset; counted exactly, they are the end of the last acknowledged chunk |
| PipelineTheorems.ProgressNeverDecreases | desktop/p2ptransfer-cli/src/main.rs:729-730 | No step lowers the stored progress, except that success sets it to the file size; counted exactly it never falls and never passes the size |
| PipelineTheorems.ResumeAccounting | desktop/p2ptransfer-cli/src/main.rs:593-610 | After the last ack the count is never below the file size, and is the size exactly when the file is not empty, the chunk count is that of the announced size, and the offset is the start of the chunk resumed at |
| PipelineInvariant.StepInv | desktop/p2ptransfer-cli/src/main.rs:629-1172 | Every step keeps the invariant: each chunk in exactly one place, consecutive frames on the wire, file and hash agreeing with what was reported |
| PipelineInvariant.InitInv | desktop/p2ptransfer-cli/src/main.rs:1009-1036 | A session, fresh or resumed, starts in the invariant whatever the output file held |
| PipelineInvariant.PlanIsSource | p2ptransfer-core/src/transfer/engine.rs:114-140 | The prepared chunks concatenate to the source |
| CliLoops.DrainLoopRuns | desktop/p2ptransfer-cli/src/main.rs:712-718 | The inner draining loop, uninterrupted, is a run of the step system |
| CliLoops.SenderLoop.OnFrame | desktop/p2ptransfer-cli/src/main.rs:709-719 | The frame arm leaves exactly the state and the frames that the draining steps give |
| CliLoops.SenderLoop.TakeAck | desktop/p2ptransfer-cli/src/main.rs:720-746 | The reply arm counts, stores and ends the loop as the step does, and sends nothing |
| CliLoops.HashChunks | desktop/p2ptransfer-cli/src/main.rs:1069-1086 | The thread accepts exactly when the reorder buffer has emitted the expected count with the expected hash |
| CliLoops.HasherAccepts | desktop/p2ptransfer-cli/src/main.rs:1069-1086 | For honest chunks in any order it accepts exactly when every one has arrived |
| CliLoops.ThreadVerdict | desktop/p2ptransfer-cli/src/main.rs:1069-1086 | Running the hashing steps on what is queued and then judging gives the verdict of the thread's loop |
| CliLoops.ResumedSessionRefused | desktop/p2ptransfer-cli/src/main.rs:1017-1086 | The honest chunks of a session that begins at some chunk are accepted exactly when that is chunk 0 |
| CliLoops.SlowReceiver.Run | desktop/p2ptransfer-cli/src/main.rs:889-945 | The sequential receiver's file, replies and verdict for any message sequence, early end of stream included |
| CliLoops.SlowTurnExactly | desktop/p2ptransfer-cli/src/main.rs:892-924 | A turn is taken exactly for a chunk frame of the index due that opens, written at its offset and acknowledged; anything else changes nothing and ends the session |
| CliLoops.SlowCompleteIsSource | desktop/p2ptransfer-cli/src/main.rs:935-945 | Whatever the peer sends, COMPLETE is answered only when the whole file has the announced checksum |
| CliLoops.SlowHonestCompletes | desktop/p2ptransfer-cli/src/main.rs:889-945 | An honest session completes exactly when it starts at chunk 0, every frame fits, the offsets match and the leftover file was not longer than the source; the file is then the source |
| Reorder.DrainSpec | desktop/p2ptransfer-cli/src/main.rs:712-718 | Draining emits the maximal run of consecutive entries and touches nothing else |
| Reorder.ReorderPrefix | desktop/p2ptransfer-cli/src/main.rs:700-719 | After any arrivals in any order the output is a sorted prefix and the table holds only later indices |
| Reorder.ReorderSorts | desktop/p2ptransfer-cli/src/main.rs:1071-1080 | All indices in any order come out once each, in order, and the table ends empty |
| Reorder.LastPayloadCounts | desktop/p2ptransfer-cli/src/main.rs:710-718 | An index that comes twice before its turn counts with its last payload |
| Reorder.ReorderBuffer.Accept | desktop/p2ptransfer-cli/src/main.rs:1074-1080 | The in-place loop computes one push of the specified buffer |
| LanReceive.NoBadFileLeft | p2ptransfer-core/src/network/tcp_compat.rs:261-335 | Under any messages, failures and interleaving, an error while verifying included: an ended attempt leaves no file, one with the announced checksum, or one whose removal failed; completion is announced only with the right file |
| LanReceive.CountersInLockstep | p2ptransfer-core/src/network/tcp_compat.rs:131-251 | At every moment of an honest run what the writer has decrypted is exactly the first blocks sent, each under the nonce that sealed it, without the wire index |
| LanReceive.WriterOpensExactly | p2ptransfer-core/src/network/tcp_compat.rs:143-147 | The writer opens and appends a block exactly when it was sealed under the session's key and prefix for the counter it was forwarded under, and otherwise stops and writes nothing |
| LanReceive.MessageEnds | p2ptransfer-core/src/network/tcp_compat.rs:191-259 | How cancel and each message that is no chunk end the loop |
| LanReceive.AnswersAtTheEnd | p2ptransfer-core/src/network/tcp_compat.rs:266-332 | The reply and the file at the end of a cancelled, broken or finished attempt |
| LanReceive.ChannelBound | p2ptransfer-core/src/network/tcp_compat.rs:125-131 | The channel to the writer never holds more than its capacity |
| LanAttempts.NoncesDistinct | p2ptransfer-core/src/network/tcp_compat.rs:463-488 | No two frames of a session are sealed under one nonce, however the reads split a file of 64-bit size |
| LanReceive.HonestRunOk | p2ptransfer-core/src/network/tcp_compat.rs:287-332 | An honest run ends with the appended whole kept and announced when its hash is right, else deleted with an error sent |
| LanReceive.HonestRunLength | p2ptransfer-core/src/network/tcp_compat.rs:191-260 | An honest run takes two steps a block and four more |
| LanReceive.HonestRunGoesOn | p2ptransfer-core/src/network/tcp_compat.rs:149-260 | An honest run that has not ended can go on: loop, writer and bounded channel do not deadlock |
| LanReceive.HonestRunEnds | p2ptransfer-core/src/network/tcp_compat.rs:149-335 | Every honest run can be carried to its end |
| LanAttempts.AcceptRoundTrip | p2ptransfer-core/src/network/tcp_compat.rs:111-117 | The sender reads back the announced offset, for every 64-bit offset |
| LanAttempts.ParseAcceptExactly | p2ptransfer-core/src/network/tcp_compat.rs:426-433 | Every reply text: rejected unless ACCEPT alone or with a colon; the number after it if it is one of 64 bits, else 0 |
| LanAttempts.ReadAndSeal | p2ptransfer-core/src/network/tcp_compat.rs:446-491 | However reads split the file, the blocks concatenate to the source from the start offset, block k is sealed under counter start/BLOCK + k, and the hash is the whole file's |
| LanAttempts.AttemptVerdict | p2ptransfer-core/src/network/tcp_compat.rs:97-109 | An undisturbed attempt ends with the source on disk exactly when it does not resume or resumes from whole blocks of the source; otherwise with no file and a mismatch |
| LanAttempts.OneAfterAnyEnd | p2ptransfer-core/src/network/tcp_compat.rs:266-335 | After an attempt that ended in any way, without a failed removal, one undisturbed attempt finishes |
| LanAttempts.TwoAttemptsSuffice | p2ptransfer-core/src/network/tcp_compat.rs:97-335 | From any leftover of any length and content two undisturbed attempts end with the source on disk |
| LanAttempts.OneMayNotSuffice | p2ptransfer-core/src/network/tcp_compat.rs:103-106 | One stray correct byte left behind defeats a single attempt |
| LanAttempts.AttemptExists | p2ptransfer-core/src/network/tcp_compat.rs:97-335 | Undisturbed attempts exist for every leftover and every way of reading |
| LanLoops.Receiver.Run | p2ptransfer-core/src/network/tcp_compat.rs:191-260 | The receive loop forwards the leading chunks under consecutive counters until cancel is seen or another message comes, and ends as that decides |
| LanLoops.WriterTask | p2ptransfer-core/src/network/tcp_compat.rs:131-151 | The writer appends the decryptions up to the first block it cannot open or write, and reports that |
| LanLoops.ReceiveFile | p2ptransfer-core/src/network/tcp_compat.rs:125-335 | For any messages, cancel point and failures: the file and completion, which some run of the step system has too |
| LanLoops.Schedule | p2ptransfer-core/src/network/tcp_compat.rs:131-260 | Taking each block as it comes, the step system ends with the file and the completion of the sequential loops |
| LanLoops.TransferFile | p2ptransfer-core/src/network/tcp_compat.rs:97-335 | Both programs run end to end complete exactly for the leftovers of AttemptVerdict |
| LanSendLoop.CancelStops | p2ptransfer-core/src/network/tcp_compat.rs:501-569 | After a cancel that does not come late the wire gains at most one CHUNK and never COMPLETE; the loop is not blocked, and within seven turns exactly one ERROR frame ends the wire |
| LanSendLoop.CanCompleteExactlyWhenLate | p2ptransfer-core/src/network/tcp_compat.rs:501-569 | A cancelled transfer can still end in COMPLETE exactly when the cancel comes after the end is dequeued or between the two polls with nothing queued, and the reader task has not failed |
| LanSendLoop.LateWindowOccurs | p2ptransfer-core/src/network/tcp_compat.rs:501-518 | The moment between the polls with nothing queued is reachable |
| LanSendLoop.PauseHolds | p2ptransfer-core/src/network/tcp_compat.rs:501-521 | From pause to the next resume the wire gains at most one CHUNK |
| LanSendLoop.FramesConserved | p2ptransfer-core/src/network/tcp_compat.rs:509-521 | At every moment the frames on the wire, in the loop's hand and in the channel are exactly those the reader offered, once and in order |
| LanSendLoop.EndedWire | p2ptransfer-core/src/network/tcp_compat.rs:501-569 | A transfer that ends well has sent exactly those frames and then COMPLETE |
| LanSendLoop.UndisturbedCompletes | p2ptransfer-core/src/network/tcp_compat.rs:501-569 | A loop left alone on a clear flag ends once the reader has: eight turns a waiting frame and nine more are enough |
| LanSendLoop.ResumeGoesOn | p2ptransfer-core/src/network/tcp_compat.rs:501-521 | Wherever resume finds an uncancelled loop with a frame to send, nine turns put a chunk on the wire |
| LanSendLoop.CancelledNeverBlocks | p2ptransfer-core/src/network/tcp_compat.rs:501-573 | Whenever cancel falls, the loop can take a turn until it has ended, and has ended after seven |
| LanSendLoop.ReadErrorIsSilent | p2ptransfer-core/src/network/tcp_compat.rs:561-569 | After the reader task fails COMPLETE is never sent, and a transfer that ends by it has sent chunks only |
| Pause.NoLostWakeup | p2ptransfer-core/src/network/alpn.rs:80-107 | A waiter that cannot run waits on a flag that is paused and not cancelled now; what a call returns was true at some instant of it |
| Pause.ResumeWakes | p2ptransfer-core/src/network/alpn.rs:67-107 | Wherever resume finds a waiting call on an uncancelled flag, five of its steps make it return false, if no further pause or cancel comes |
| Pause.PausedCallWaits | p2ptransfer-core/src/network/alpn.rs:80-107 | A call begun while paused never returns false before a resume |
| Pause.FlagFollowsCommands | p2ptransfer-core/src/network/alpn.rs:63-73 | The flag is paused exactly when the last pause or resume was a pause, and cancelled from the first cancel on |
| Pause.CancelledCallReturnsTrue | p2ptransfer-core/src/network/alpn.rs:85-89 | A call begun after cancel returns true within three of its steps whatever pauses and resumes happen |
| Pause.NoLostCancel | p2ptransfer-core/src/network/alpn.rs:110-125 | A call waiting for cancel that cannot run has not been cancelled, and one that has returned has |
| Pause.CancelWakes | p2ptransfer-core/src/network/alpn.rs:110-125 | Wherever cancel finds such a call, three of its steps are enough for it to return |
| Pause.FirstPoll | p2ptransfer-core/src/network/alpn.rs:110-125 | The first poll of a new call returns if the flag is cancelled and otherwise sleeps until the next change of it |
| Pause.PauseFlag.Cancel | p2ptransfer-core/src/network/alpn.rs:71-73 | Cancel sets the value and bumps its channel's version only |
| Quic.ReadFile | p2ptransfer-core/src/network/alpn.rs:751-799 | The sender streams the file from the offset on and reports the whole file's hash, for every offset and fragmentation |
| Quic.ReceiveStream | p2ptransfer-core/src/network/alpn.rs:483-544 | The pieces handed to the writer concatenate to the stream, or to a prefix of it when cancel is seen |
| Quic.WriteStream | p2ptransfer-core/src/network/alpn.rs:424-465 | The writer appends the pieces and reports the hash of kept prefix plus pieces |
| Quic.RunTransfer | p2ptransfer-core/src/network/alpn.rs:394-465 | The outcome does not depend on fragmentation |
| Quic.HashAgreement | p2ptransfer-core/src/network/alpn.rs:410-416 | Reported hash is the disk's exactly for aligned leftovers, the sender's exactly when the kept prefix is the source's, and the file is the source exactly when both |
| BoundedPipe.PipeState.PollRead | p2ptransfer-core/src/network/backpressure.rs:44-69 | A read's data, new state and wakeup |
| BoundedPipe.PipeState.PollWrite | p2ptransfer-core/src/network/backpressure.rs:89-121 | A write's count, error, new state and wakeup |
| BoundedPipe.PipeState.CloseWriter | p2ptransfer-core/src/network/backpressure.rs:127-134 | Shutdown closes the write side and wakes a stored reader |
| BoundedPipe.PipeState.DropReader | p2ptransfer-core/src/network/backpressure.rs:33-40 | Dropping the reader closes the read side and wakes a stored writer |
| BoundedPipe.WriteAnswers | p2ptransfer-core/src/network/backpressure.rs:89-121 | After any schedule a write fails exactly when an end was closed, waits exactly when both are open and the buffer is full, and otherwise takes as many bytes as there is room for |
| BoundedPipe.ReadAnswers | p2ptransfer-core/src/network/backpressure.rs:44-69 | And a read takes as many bytes as there are or fit, or reports the end exactly when the write end was closed, or waits |
| BoundedPipe.NoLostWakeup | p2ptransfer-core/src/network/backpressure.rs:17-135 | Under every schedule: bytes conserved in order and within capacity, a parked task has its waker stored and a reason to wait, end of stream only after every byte |
| BoundedPipe.DeadlockOnlyAtCapacityZero | p2ptransfer-core/src/network/backpressure.rs:108-111 | Both tasks can be parked at once exactly for capacity 0 |
| BoundedPipe.ParkedIsReleased | p2ptransfer-core/src/network/backpressure.rs:33-133 | For any other capacity, after any schedule, a parked task is woken with something to do by the other side's next read, write, close or drop |
| BoundedPipe.PipeCarriesMessages | p2ptransfer-core/src/network/backpressure.rs:43-135 | Under every schedule the framed messages parsed are a prefix of those sent, and all of them at the end of a complete send |
| RateLimit.RateLimiter.Allow | p2ptransfer-core/src/network/bandwidth.rs:88-95 | With both clock readings: the answer is yes exactly when for every earlier call the bytes offered since it fit the rate times one second more than the time since, on the clock by which the bucket drains |
| RateLimit.LevelAdmits | p2ptransfer-core/src/network/bandwidth.rs:91-94 | The bucket's one number is within the rate exactly when the whole history is admitted |
| RateLimit.LevelStep | p2ptransfer-core/src/network/bandwidth.rs:90-93 | Draining and filling keeps that number equal to the maximum over the history |
| RateLimit.WindowBound | p2ptransfer-core/src/network/bandwidth.rs:88-95 | In any window that starts at a call the bytes let through are at most rate times one second more than the window |
| RateLimit.WallClockBound | p2ptransfer-core/src/network/bandwidth.rs:90-92 | The same on the wall clock, although the bucket loses the time between its two clock readings |
| RateLimit.CallAll | p2ptransfer-core/src/network/bandwidth.rs:80-95 | Any calls of a new limiter: in any window of them that starts at a call the bytes let through are at most rate times one second more than the window on the callers' clock |
| Tiling.LengthsTile | p2ptransfer-core/src/transfer/chunker.rs:30-45 | Chunk lengths sum to the file size |
| Tiling.OffsetInFile | p2ptransfer-core/src/transfer/chunker.rs:37-45 | Every chunk starts inside the file, so offsets stay in 64 bits |
| Tiling.WriteTile | p2ptransfer-core/src/transfer/engine.rs:142-173 | Writing a prepared chunk establishes it and disturbs no other |
| Tiling.WriteAtBytes | p2ptransfer-core/src/transfer/engine.rs:157-170 | A write changes the bytes it covers and no others, and a gap it leaves reads as zeros |
| Tiling.AnyOrder | p2ptransfer-core/src/transfer/engine.rs:114-173 | Chunks in any order, with repeats, covering every index, give the source exactly when the destination was not longer |
| Tiling.OffsetsAgree | p2ptransfer-core/src/transfer/engine.rs:86-87 | Sender and receiver offsets agree exactly for chunk 0 or requested sizes up to the maximum |
| Files.FileHandle.ReadExact | p2ptransfer-core/src/transfer/engine.rs:133-139 | However short the reads, the next n bytes, or none when the file ends first |
| Files.PrepareChunk | p2ptransfer-core/src/transfer/engine.rs:114-140 | Reads exactly the chunk of the announced file, and fails exactly when the file has shrunk below the chunk's end |
| Files.ReceiveChunk | p2ptransfer-core/src/transfer/engine.rs:142-173 | Writes the chunk at its offset without truncation |
| Files.VerifyChecksum | p2ptransfer-core/src/transfer/engine.rs:175-199 | True exactly when the whole file has the digest |
| Files.ConsistentStep | p2ptransfer-core/src/transfer/resume.rs:210-224 | Chunk write, commit, crash and torn write each keep the committed prefix on disk |
| Files.CrashesAreHarmless | p2ptransfer-core/tests/resume_integration.rs:104-157 | After any crashes and resumes every committed byte agrees with the source, and a finished run leaves the source exactly when the file was not longer to begin with |
| Files.LastRunFinishes | p2ptransfer-core/tests/resume_integration.rs:104-157 | After any crashes, writing the chunks that are left gets past the last one, and the file is then the source exactly when the leftover was not longer |
| Files.CommitSurvives | p2ptransfer-core/src/transfer/resume.rs:210-224 | A crash goes back exactly to the chunk last committed |
| Files.TornWriteLeaves | p2ptransfer-core/src/transfer/engine.rs:168-170 | A torn write leaves the first bytes of its chunk on disk |
| Resume.TransferResumeManager.CreateTransfer | p2ptransfer-core/src/transfer/resume.rs:102-123 | Inserts a pending row at zero bytes, or fails on a used id and changes nothing |
| Resume.TransferResumeManager.UpdateProgress | p2ptransfer-core/src/transfer/resume.rs:210-224 | Sets bytes and status of that row only; an unknown id changes nothing |
| Resume.TransferResumeManager.CompleteTransfer | p2ptransfer-core/src/transfer/resume.rs:242-264 | Moves that row to completed with its full size and the checksum |
| Resume.TransferResumeManager.FailTransfer | p2ptransfer-core/src/transfer/resume.rs:266-280 | Marks that row failed and keeps its byte count |
| Resume.TransferResumeManager.GetTransfer | p2ptransfer-core/src/transfer/resume.rs:282-314 | Returns that row, with a status text that is none of the five read as failed, or nothing for an unknown id |
| Resume.StatusRoundTrip | p2ptransfer-core/src/transfer/resume.rs:17-37 | Every status reads back from its text, and only from that text |
| Framing.ReceiveEncoded | p2ptransfer-core/src/network/tcp.rs:194-219 | A message is received as sent, whatever follows, exactly when it is within 64 MB |
| Framing.RoundTrip | p2ptransfer-core/src/network/tcp.rs:194-219 | Repeated reception yields exactly the list sent |
| Framing.PrefixReceives | p2ptransfer-core/src/network/tcp.rs:201-219 | From any prefix of the bytes, a prefix of the list |
| Framing.EncodingInjective | p2ptransfer-core/src/network/tcp.rs:194-199 | Different lists never share a byte stream |
| Framing.ChunkFrameRoundTrip | desktop/p2ptransfer-cli/src/main.rs:662-665 | A chunk frame decodes to its 32-bit index, flag and ciphertext, and arrives exactly when ciphertext and header fit |
| Framing.Reader.ReceiveMessage | p2ptransfer-core/src/network/tcp.rs:201-219 | For every fragmentation of the reads, what is received and what remains unread |
| Framing.HandleConnection | p2ptransfer-core/src/network/tcp.rs:120-163 | The request loop's responses and the way the connection ends, for any byte stream |
| Framing.ServesEveryMessage | p2ptransfer-core/src/network/tcp.rs:129-160 | A peer that sends messages and closes gets one response each, in order |
| Framing.ServesThenEnds | p2ptransfer-core/src/network/tcp.rs:129-160 | Messages are answered in order and what follows them decides how the connection ends |
| Framing.ServiceEnds | p2ptransfer-core/src/network/tcp.rs:129-151 | The endings: stopped, closed by the peer, disconnected for a claim over the limit, failed for a cut payload or a refusing handler |
| Framing.ReceiveTruncated | p2ptransfer-core/src/network/tcp.rs:201-219 | A message cut off on the way is not received |
| Framing.DecodesExactly | desktop/p2ptransfer-cli/src/main.rs:1094-1098 | Which payloads decode as chunk frames, and to what |
| Framing.MessageLayout | p2ptransfer-core/src/network/tcp.rs:194-199 | A message byte by byte: eight length bytes, the most significant first, and the payload |
| Framing.ChunkFrameLayout | desktop/p2ptransfer-cli/src/main.rs:662-665 | A chunk frame byte by byte: tag, four index bytes, the least significant first, flag, ciphertext |
| Aead.NonceInjective | p2ptransfer-core/src/crypto/aead.rs:32-37 | Nonces are 12 bytes, and within a session two agree exactly when their 64-bit counters do |
| Aead.NonceLayout | p2ptransfer-core/src/crypto/aead.rs:32-37 | A nonce byte by byte: the prefix, then the counter with its most significant byte first |
| Aead.BigEndianRoundTrip | p2ptransfer-core/src/network/tcp.rs:195-207 | The eight length bytes read back as the number written |

## Left out

- PipelineTheorems.NoFalseAlarm: peers are honest and disks, sockets and tasks do not fail; of errors only the message limit and the hash are modelled in the pipelined transfer.
- PipelineTheorems.TransferSucceeds: covers single-connection sessions whose chunk count fits the 32-bit index; when a receiver drops the connection, its acks arrive before the sender sees the error, and a failing write on the sender's side, which ends in the same failure, is not a step of its own.
- PipelineTheorems.CompleteMeansSource: file offsets are exact, where the code multiplies in 64 bits; the two differ only for announced chunk sizes far above the clamp, which do not match offsets anyway.
- PipelineRetries.RetriesAfterPause: one row stands for the transfer; that a table may hold several unfinished rows of the same file and peer is not modelled.
- LanReceive.NoBadFileLeft: an attempt whose process dies before the end is not bound by it; its leftover is the arbitrary starting file of the next attempt.
- LanReceive.HonestRunOk: the model sends a cancelled session's ERROR together with the removal, while the code sends it before it waits for the writer.
- LanSendLoop.CancelStops: write failures of the socket are not modelled; in the code they end in an attempted ERROR frame too.
- RateLimit.RateLimiter.Allow: uses exact real arithmetic instead of floating point.
- Pause.NoLostWakeup: the semantics of the watch channel (latest value, version, `changed`) is taken from its library's documentation.
- Files.CrashesAreHarmless: the chunk size is the same in every run and chunks are written in order, as the resume test does.
- CLI auxiliary connections (SESSION_JOIN): each has its own hashing thread, so the hash argument does not cover more than one connection.
- Receiver-side resume rows in the command-line program: the id that creates the row is discarded and updates use another one.
- Socket, reader and writer buffers: the reader task's receive and channel send are one step; buffered writes reach the modelled file at once, and `flush` is not modelled.
- `send_err` in `tcp_compat.rs`: builds a future it never awaits, so it sends nothing and has no counterpart here.
- Key exchange, HKDF, the cipher, BLAKE3, zstd and LZ4 internals: matched pairs stand for them.
- JSON metadata, accept prompts, timeouts, pause of the receiving side, progress and speed events, the registries of active transfers.
- QUIC removal of the file after a cancel, `unique_path` naming and transport errors: the outcome of an undisturbed transfer is what the hash statement is about.
- SQLite: a map with atomic statements; contacts and listing queries, pausing a row.
- The desktop GUI, mobile and bridge code, discovery, configuration and the command line itself: interface or a near copy of the local-network path.
- `BandwidthMonitor`, compression detection, identity and file iteration: only shallow properties.
