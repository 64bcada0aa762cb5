# avbperf: the AVB audio listener and its WAV recorder, in Dafny

`avbperf` sends audio over Ethernet as AVTP packets and, at the other end, plays and records it.
This project models four connected parts of it and proves what they promise together.

- **WAV files** (`avbperf/wav.c`). `WavFile.WavFile` is the file object: a stdio stream and chunk
  records in memory that are patched back to disk after every write. Its methods are proved against
  state functions in `WavState`, and everything else is proved about those: which operations keep disk
  and memory in agreement (`WavCoherence`, `WavRuns`), how the position moves (`WavPosition`), reading
  back (`WavPlayback`, `WavRoundTrip`), what single calls do in plain numbers (`WavCalls`), the bytes on
  disk as literals (`WavWire`), and the header parser against a chunk-list grammar that does not
  mention the parser (`WavParser`, `WavGrammar`): what it accepts, how it ends on everything else
  (`WavVerdict`), and what it makes of pad bytes (`WavPadding`).
- **The listener** (`avbperf/avb_aaf.c`). `ListenerSpec` is a state machine whose steps are passes of the
  poll loop; a step is `None` when an assertion of the source would fail. `Listener.Listener` is the
  object with its queue, one-shot timer, sequence expectation, statistics and recording, proved to take
  these steps. `Talker` is the sending loop, and what a run that receives nothing else may rely on.
- **Presentation times** (`avbperf/common.c`), in `AvtpTime`.
- **Statistics** (`avbperf/avb_stats.c`). `Stats` has the linked stack and the array loops, `StatsSpec` what
  they compute.

`EndToEnd` and `Session` join the parts. For every interleaving of packets and timer expirations, the
recorded file holds the payloads of the accepted packets in arrival order, a prefix of them at packet
granularity, and all of them once the queue has drained; it parses and reads back as recorded; and the
stamp it is named after is the talker's clock at the first stored packet less the hardware latency,
although the carry in the time recovery is disabled. `Session.BroadcastRecorded` says so from the
talker's sound card to the bytes a reader of the file gets, `Session.LosslessBroadcast` when nothing is
lost on the way.

Where the code departs from its comments or from what a reader expects, the code is followed and the
departure is a result:

- The 2^32 carry is commented out. `AvtpTime.TimerExact` and `AvtpTime.RebuildIff` say exactly which
  times survive, `AvtpTime.CarryRecovers` that the carry is all that is missing, `AvtpTime.CarryMissing`
  is the smallest time lost. A late packet's travel time is 2^32 ns too large
  (`EndToEnd.TravelOfGenuine`).
- The first packet armed with time zero disarms the timer and stalls the listener for good
  (`ListenerSpec.StepKeepsMode`, `ListenerSpec.EpochStalls`, reached by `ListenerSpec.EpochReached`).
- A write that does not land at the end of the file still grows the sizes: `WavRuns.StepCoherent` is an
  exact condition, `WavRuns.MisplacedReached` the smallest such run. The header file says that setters
  clear the data; they do not (`WavRuns.SetterState`).
- An empty or short `fact` chunk sets an error and goes on; the next error then fails an assertion.
  `WavVerdict.ParseVerdict` says on exactly which images opening fails the assertion, and on which a
  file opens with an error set; `WavVerdict.EmptyFactAborts` and `WavVerdict.EmptyFactFound` are the
  shortest of each.
- The parser knows no pad bytes. RIFF files without odd chunks are read as RIFF means them
  (`WavPadding.EvenPaddedParses`); behind the first odd chunk the next header is never seen, whatever it
  is (`WavPadding.OddHidesNext`), so with one odd chunk, the last, the data chunk is not found
  (`WavPadding.PaddedParsesIff`, `WavPadding.PadByteDerails`). With chunks behind it the loop may fall
  back into place: `WavPadding.Resynchronises`.
- The parser asks for no format chunk (`WavGrammar.FormatNotDemanded`). `WavGrammar.ReopenedPlayable` says
  exactly which reopened files have a length and a position, which divide by header fields.
- Opening for append truncates (`WavFile.WavFile.Init`).
- With exactly one stored packet the mean of no deltas divides by zero, before the recording is closed
  (`Stats.StatsHandler.ProcessStats`, `Session.Session`).
- Late packets discarded on an empty queue, packets rejected after the sequence check, and whole multiples
  of 256 in a gap are not counted as lost: `EndToEnd.LossExact` says how many are missed, and exactly when
  none are; `EndToEnd.UndercountReached` is the smallest gap that is.

Integer widths are written out: `Wrap8`, `Wrap16`, `Wrap32` and `Wrap64` stand where the source truncates or
wraps. The error slot of the library, one per thread in the source, is a field of the file; a call that
could raise an error requires that none is pending, which is what the assertion in the error setter asks.

## Model

| member | source | states |
|---|---|---|
| `WavFile.WavFile.Init` | avbperf/wav.c:391-459 | any writing mode yields the empty file with the default header whatever the named file held; read-only yields what the parser function says of the bytes; no mode is a parameter error |
| `WavFile.WavFile.ParseHeader` | avbperf/wav.c:256-330 | the chunk loop ends on every byte image, with the outcome of the parser function: records and position on success, error otherwise, or a failed assertion |
| `WavFile.WavFile.WriteHeader` | avbperf/wav.c:332-389 | the header on disk and the RIFF size are those of the state function; chunk records, mode and error stay |
| `WavFile.WavFile.Write` | avbperf/wav.c:574-623 | new state and reported frames, including the error paths and the jump to the end in append-only mode |
| `WavFile.WavFile.Read` | avbperf/wav.c:503-537 | new state, delivered bytes and frame count, clamped by the data chunk in size_t arithmetic |
| `WavFile.WavFile.Seek` | avbperf/wav.c:639-666 | new position, or a parameter error and no move |
| `WavFile.WavFile.Eof` | avbperf/wav.c:673-676 | the stream's flag, or the position at the end of the data chunk |
| `WavFile.WavFile.UpdateSizes` | avbperf/wav.c:539-572 | size fields on disk taken from memory, position restored |
| `WavFile.WavFile.SetFormat` | avbperf/wav.c:689-721 | tag, forced sample size and rewritten header |
| `WavFile.WavFile.SetChannels` | avbperf/wav.c:723-744 | channel count with block alignment and byte rate recomputed in 16 and 32 bits |
| `WavFile.WavFile.SetSampleSize` | avbperf/wav.c:789-809 | sample size with alignment, byte rate and bits recomputed |
| `WavFile.WavFile.SetRate` | avbperf/wav.c:746-760 | rate with byte rate recomputed |
| `WavCalls.WriteLands` | avbperf/wav.c:599-604 | a write lands behind the last whole frame if the file was opened for appending only, and otherwise at the position |
| `WavCalls.WriteReports` | avbperf/wav.c:574-623 | a write to a recording reports all its frames, puts exactly their bytes down where it lands, touches no other audio, and leaves the position behind them |
| `WavCalls.WriteRefused` | avbperf/wav.c:580-597 | without a writing mode, or with the extensible tag, a write only sets the error; of no frames, or with an error pending, it does nothing; neither reports frames |
| `WavCalls.SizesGrow` | avbperf/wav.c:612-616 | the sizes grow by the bytes written, a fact chunk's length by the frames |
| `WavCalls.ReadReports` | avbperf/wav.c:503-537 | wherever the position stands, behind the end too: the bytes delivered, the whole frames among them, the new position, and end of file exactly on a short read |
| `WavCalls.ReadRefused` | avbperf/wav.c:510-523 | without the reading mode, or with the extensible tag, a read only sets the error; with an error pending it does nothing |
| `WavCalls.ShortReadIsEof` | avbperf/wav.c:673-676 | after a read, end of file holds exactly if it did before, the read was cut short by the end of the file, or the data chunk is used up |
| `WavCalls.SeekLands` | avbperf/wav.c:639-666 | from all three origins: refused without moving exactly if it leads before the audio, else at the frame asked for with end of file cleared |
| `WavCalls.SettableIff` | avbperf/wav.c:691-694 | a recording takes settings in a writing mode at any time, and opened for appending while it holds no audio |
| `WavCalls.SetterRefusedIff` | avbperf/wav.c:689-809 | which setter calls are refused, with which error, and that they change nothing else |
| `WavCalls.SetterSets` | avbperf/wav.c:689-809 | the format record after each setter, field by field, with the sample sizes that A-law, mu-law and float force |
| `WavCalls.SetterMoves` | avbperf/wav.c:689-809 | a value already there changes nothing, the sample size excepted; any other rewrites the header, keeps the audio and leaves the position at its start |
| `WavFormat.BodyRoundTrip` | avbperf/wav.c:189-208 | decoding the packed little-endian format body gives back the record |
| `WavFormat.OverlayPlain` | avbperf/wav.c:296-296 | a 16-byte body read over any record sets exactly the six plain fields |
| `WavWire.Identifiers` | avbperf/wav.c:24-31 | the identifiers as they lie on disk: RIFF, WAVE, fmt, fact, data |
| `WavWire.HeaderBytes` | avbperf/wav.c:332-389 | the 44 bytes of the header for every format and size: literal identifiers, every field at its offset, low byte first |
| `WavWire.RecordingBytes` | avbperf/wav.c:332-389 | the bytes of every coherent recording: that header with the size of the audio on disk, then the audio |
| `WavWire.NewFileBytes` | avbperf/wav.c:423-458 | the 44 literal bytes of a file just opened for writing or appending |
| `WavWire.RiffHeadBytes` | avbperf/wav.c:256-281 | the literal bytes a file must begin with to be parsed |
| `WavWire.PieceBytes` | avbperf/wav.c:283-329 | the chunks of the grammar as bytes, and the body sizes it allows |
| `WavWire.SupportedTags` | avbperf/wav.c:301-308 | the format tags accepted are 1, 3, 6 and 7 |
| `WavCoherence.WriteHeaderImage` | avbperf/wav.c:332-389 | on an empty disk or one with a full header, the result is byte for byte the canonical header followed by the old audio |
| `WavCoherence.ChunksStored` | avbperf/wav.c:332-389 | with all chunk records present and apart, a fact chunk included, each stands on disk at its offset and the RIFF size counts them all |
| `WavCoherence.NewCoherent` | avbperf/wav.c:423-458 | a file opened for writing is the canonical empty recording |
| `WavCoherence.UpdateSizesFrame` | avbperf/wav.c:539-572 | no byte outside the RIFF size, fact length and data size fields changes; length and position stay |
| `WavCoherence.UpdateSizesStored` | avbperf/wav.c:539-572 | afterwards each of these fields holds the value in memory |
| `WavCoherence.TransferAtEnd` | avbperf/wav.c:606-618 | at the end of a coherent file a write appends exactly its bytes and leaves all sizes right |
| `WavCoherence.TransferIff` | avbperf/wav.c:606-618 | a write of at least one byte appends exactly and keeps disk and memory in agreement if and only if it lands at the end |
| `WavRuns.SetterState` | avbperf/wav.c:689-760 | every in-range setter refuses, is idle, or rewrites the header for the configuration it means and changes nothing else |
| `WavRuns.SetterRun` | avbperf/wav.c:689-809 | any sequence of in-range setters keeps block_align, avg_bytes_per_sec and bits_per_sample consistent with the configuration the calls add up to, and keeps the audio |
| `WavRuns.SettersCommute` | avbperf/wav.c:723-809 | sample-size, channel and rate setters in either order give the same state, disk included |
| `WavRuns.NewIsGood` | avbperf/wav.c:423-458 | a newly opened file meets the invariants the run results start from, in every writing mode |
| `WavRuns.StepCoherent` | avbperf/wav.c:574-666 | one operation appends exactly what it was given and keeps disk and memory in agreement if and only if it is not a write away from the end |
| `WavRuns.MisplacedReached` | avbperf/wav.c:606-618 | writing a frame, rewinding and writing it again leaves a header that promises twice the audio on disk |
| `WavRuns.AppendRun` | avbperf/wav.c:599-621 | append-only files under any run of seeks, reads, setters and writes stay header plus exactly the audio written, in whole frames, while that is below 2^32 bytes |
| `WavRuns.SequentialRun` | avbperf/wav.c:574-623 | configuring and then writing in order, at any length: the disk is the image of what was written |
| `WavPosition.AppendedFile` | avbperf/wav.c:332-389 | after any append-only run the file ends with the data chunk, holds whole frames, and its RIFF, format and data records equal those in memory |
| `WavPosition.AppendRunOnFrame` | avbperf/wav.c:599-666 | every append-only run keeps the position on frame boundaries |
| `WavPosition.WriteAdvances` | avbperf/wav.c:606-622 | a write moves the position by the frames it reports, from where it landed |
| `WavPosition.AdvanceTells` | avbperf/wav.c:625-637 | moving by whole frames moves tell by as many and keeps the offset inside a frame |
| `WavPosition.ReadThenEof` | avbperf/wav.c:673-676 | after a read, end of file holds exactly when the read reached the last frame |
| `WavPlayback.ImageParses` | avbperf/wav.c:256-330 | a canonical header parses, to every field and the data size, exactly when its tag is one of the four supported |
| `WavPlayback.ReadFrames` | avbperf/wav.c:503-537 | a read at a frame delivers the next frames clamped at the end of the data chunk and stands right behind them |
| `WavPlayback.SplitReads` | avbperf/wav.c:503-537 | any list of reads equals the single read of the summed count: bytes, frames and final state |
| `WavPlayback.SeekTell` | avbperf/wav.c:625-666 | tell after seek gives the frame sought, on a frame boundary |
| `WavPlayback.SeeksCompose` | avbperf/wav.c:639-666 | relative seeks add up while no intermediate position is negative |
| `WavRoundTrip.ReadBack` | avbperf/wav.c:503-537 | reading everything from a reopened recording gives exactly the recorded audio if and only if it is below 2^32 bytes |
| `WavRoundTrip.RecordRoundTrip` | avbperf/wav.c:391-623 | from opening to read-back, after any admitted run: the image parses to the configuration and size in memory and reads as the concatenation of all buffers written, while these are below 2^32 bytes |
| `WavGrammar.LoopList` | avbperf/wav.c:283-329 | whatever error is pending, the loop reads a spelled and accepted chunk list to its end and holds its fold |
| `WavGrammar.ScanSpelled` | avbperf/wav.c:283-329 | on any spelled chunk list the loop returns the fold of the list, or a rejection when a format chunk is unsupported |
| `WavGrammar.ParsesIffSpelled` | avbperf/wav.c:256-330 | on any byte image, parsing succeeds without error exactly when some chunk list spells it |
| `WavGrammar.SpelledParses` | avbperf/wav.c:256-330 | and then returns the fold of that list, in any chunk order |
| `WavGrammar.LastFormatWins` | avbperf/wav.c:293-309 | of several format chunks the last one, if at least 16 bytes long, determines all plain fields; without one the record stays as it was |
| `WavGrammar.LastFactWins` | avbperf/wav.c:310-317 | the last fact chunk, if four bytes long, is the sample length; without one the record stays as it was |
| `WavGrammar.AcceptsByTag` | avbperf/wav.c:301-308 | a format chunk is accepted exactly by the tag its first two bytes leave; all other chunks are |
| `WavGrammar.FormatNotDemanded` | avbperf/wav.c:283-329 | every spelled file parses cleanly, with or without a format chunk; the kept chunk header tells which, and without one the format record is all zeros |
| `WavGrammar.ReopenedPlayable` | avbperf/wav.c:625-637 | the fields that length, position and sample size divide by are nonzero exactly when the format chunks leave them so, byte by byte; never without a format chunk, and by a last one of at least 14 bytes alone |
| `WavVerdict.ParseVerdict` | avbperf/wav.c:165-330 | on any byte image, exactly when parsing is rejected, fails the assertion of the error setter, opens with an error set, or overruns a record: by the chunk list read, what ends it, and the list read behind an unreadable fact chunk |
| `WavVerdict.FaultVerdict` | avbperf/wav.c:310-317 | a fact chunk cut short fails the assertion; an empty one lets the file open, with the error set, exactly if an accepted list and a data header follow |
| `WavVerdict.FaultyParses` | avbperf/wav.c:283-329 | behind an unreadable fact chunk the parse returns the fold of both lists with the error, or fails the assertion, or overruns |
| `WavVerdict.EmptyFactAborts` | avbperf/wav.c:310-317 | a file of an empty fact chunk and nothing more fails the assertion |
| `WavVerdict.EmptyFactFound` | avbperf/wav.c:310-317 | with a data header behind it the same file opens with an error set |
| `WavPadding.EvenPaddedParses` | avbperf/wav.c:283-329 | every RIFF file whose chunks are all even-sized and whose formats are supported parses to what RIFF means by it, chunk for chunk at its padded offset |
| `WavPadding.OddHidesNext` | avbperf/wav.c:322-327 | behind the first odd chunk the header that follows is never seen, whatever it is: the loop takes pad byte and seven bytes of it for an unknown chunk and goes on behind that |
| `WavPadding.PaddedParsesIff` | avbperf/wav.c:322-327 | among RIFF files with no odd chunk but possibly the last, the data chunk is found where RIFF has it exactly when none is odd |
| `WavPadding.Resynchronises` | avbperf/wav.c:322-327 | an input with an odd chunk earlier in the list where the data chunk is found all the same |
| `WavPadding.PadByteDerails` | avbperf/wav.c:322-327 | an odd chunk with its pad byte makes the parser miss the data chunk that it finds without |
| `AvtpTime.TalkerStamp` | avbperf/common.c:47-65 | the stamp sent is the clock's value plus transit time modulo 2^32, even where the 64-bit sum wraps |
| `AvtpTime.StampInUnits` | avbperf/common.c:38-65 | the stamp in plain numbers: clock nanoseconds plus a million per millisecond of transit, low 32 bits |
| `AvtpTime.RebuiltInUnits` | avbperf/common.c:67-92 | the rebuilt time in plain numbers, seconds and nanoseconds, and when it is late |
| `AvtpTime.RebuildIff` | avbperf/common.c:67-92 | for any presentation time: rebuilt exactly if and only if it lies in the clock's 2^32 ns window; late if and only if its lower half is below the clock's |
| `AvtpTime.TimerExact` | avbperf/common.c:67-92 | for times less than 2^32 ns ahead: on time exactly when rebuilt exactly, else late and exactly 2^32 too small |
| `AvtpTime.CarryRecovers` | avbperf/common.c:80-85 | with the disabled carry every such time is recovered; without it exactly those not late |
| `AvtpTime.CarryMissing` | avbperf/common.c:80-91 | one nanosecond before the lower half rolls over, the next nanosecond is rebuilt as the epoch and reported late |
| `Talker.Talk` | avbperf/avb_aaf.c:229-265 | packet i carries sequence number i mod 256, the stamp of its reading, and its own fragment |
| `Talker.ReceivedRun` | avbperf/avb_aaf.c:234-245 | a run that receives only what the talker sent, in order and in time, whatever is lost, meets every hypothesis of the end-to-end results: genuine stamps, numbering modulo 256, increasing indices |
| `Talker.AcceptedInOrder` | avbperf/avb_aaf.c:229-265 | its accepted packets carry the talker's fragments and readings at strictly increasing places |
| `Listener.Listener.NewPacket` | avbperf/avb_aaf.c:447-509 | the packet step of the state machine: sequence, late filter, loss, statistics, queue and timer |
| `ListenerSpec.AcceptedIff` | avbperf/avb_aaf.c:447-509 | exactly which packets are taken, by their fields, the queue and the low 32 bits of the arrival clock; what a taken one adds to queue, statistics and loss count, and that any other touches none of them |
| `Listener.Listener.IsValidPacket` | avbperf/avb_aaf.c:373-387 | the sequence expectation moves on before the format fields are checked |
| `Listener.Listener.ScheduleSample` | avbperf/avb_aaf.c:278-310 | appended at the tail; the timer is armed for a first entry only |
| `Listener.Listener.PlayFragment` | avbperf/avb_aaf.c:511-529 | the head is played and recorded, and the recording keeps holding exactly what was played |
| `Listener.Listener.Pass` | avbperf/avb_aaf.c:675-708 | one pass of the loop is one step of the state machine; neither assertion can fail |
| `ListenerSpec.PassPlays` | avbperf/avb_aaf.c:690-708 | a pass plays exactly the head of the queue, and does so exactly when playing or when the armed timer expired |
| `ListenerSpec.BurstPlays` | avbperf/avb_aaf.c:690-708 | once a burst is due every pass plays one fragment until the queue is empty, whatever packets come |
| `ListenerSpec.AcceptedIsPlayed` | avbperf/avb_aaf.c:675-708 | everything a run accepts is played, in order, once enough passes follow |
| `ListenerSpec.QueueDrains` | avbperf/avb_aaf.c:675-708 | when no packet comes any more the queue runs empty, the listener is idle again, and exactly the accepted payloads were played |
| `Listener.Listener.Listen` | avbperf/avb_aaf.c:674-721 | the loop is a run of the state machine and ends in a mode, with the recording in step |
| `Listener.SetUpRecorder` | avbperf/avb_aaf.c:566-579 | leaves an empty recording with the configuration of the stream settings |
| `RecorderSpec.RecorderBytes` | avbperf/avb_aaf.c:566-579 | the recorder's file in the numbers of the stream: tag 3 for 32 bits and 1 otherwise, channels, rate, bytes a frame and bits, then the audio |
| `ListenerSpec.StepKeepsMode` | avbperf/avb_aaf.c:675-708 | from a mode no assertion fails, and the pass ends in a mode if and only if it does not arm the timer with zero |
| `ListenerSpec.RunKeepsMode` | avbperf/avb_aaf.c:675-708 | every run with the clock past the epoch stays in the three modes and fails no assertion |
| `ListenerSpec.ArmsOnlyWhenIdle` | avbperf/avb_aaf.c:297-307 | the timer is armed only while idle, for an on-time first packet |
| `ListenerSpec.EpochStalls` | avbperf/avb_aaf.c:297-305 | armed with zero, the listener never plays again |
| `ListenerSpec.EpochReached` | avbperf/avb_aaf.c:297-305 | one packet stamped zero at the epoch gets there from the start; whatever events follow, nothing is played |
| `ListenerSpec.RunConserves` | avbperf/avb_aaf.c:291-529 | at every point of every run, played followed by queued equals accepted, in arrival order |
| `ListenerSpec.RunStack` | avbperf/avb_aaf.c:497-501 | the statistics stack holds one entry for each accepted packet, newest first |
| `ListenerSpec.FirstIsOnTime` | avbperf/avb_aaf.c:483-489 | the first packet a run accepts passed the late filter |
| `EndToEnd.DeadlineIsTrue` | avbperf/avb_aaf.c:297-305 | every deadline armed is the talker's true presentation time |
| `EndToEnd.StartStamp` | avbperf/avb_aaf.c:735-737 | the capture time of the first stored packet is the talker's clock less the hardware latency, over every run |
| `EndToEnd.TravelsOfRun` | avbperf/avb_stats.c:181-186 | over a run, each reported travel time is arrival less the talker's clock exactly when that packet was not rebuilt too early, and 2^32 more otherwise |
| `EndToEnd.MeanDeltaOfRun` | avbperf/avb_stats.c:175-203 | over a run, the reported mean capture delta is the true average exactly when the last packet was not rebuilt 2^32 too early (up to 2^32 packets) |
| `EndToEnd.LossExact` | avbperf/avb_aaf.c:471-495 | stored plus dropped plus uncounted is the talker's span from the first stored packet to the last seen, so the count never exceeds it, and meets it exactly when nothing was discarded and no gap passed 255 (packets in the talker's order, span below 2^32) |
| `EndToEnd.UndercountReached` | avbperf/avb_aaf.c:491-495 | packets 0 and 257 alone: 256 are missing and none is counted |
| `StatsSpec.TravelFormulasAgree` | avbperf/avb_stats.c:181-186 | both travel formulas agree for every packet in wrapping arithmetic |
| `StatsSpec.CaptureInUnits` | avbperf/avb_stats.c:103-121 | the capture time in plain numbers: presentation less transit milliseconds and latency, split into seconds and nanoseconds |
| `StatsSpec.TravelInUnits` | avbperf/avb_stats.c:181-186 | the travel time in plain numbers: arrival less presentation plus transit milliseconds, modulo 2^64 |
| `StatsSpec.DeltasTelescope` | avbperf/avb_stats.c:175-200 | the deltas sum modulo 2^64 to newest minus oldest presentation; transit and latency cancel |
| `StatsSpec.MeanDeltaIff` | avbperf/avb_stats.c:123-136 | the reported mean delta is the floor of the true average exactly when the newest presentation is not before the oldest, whatever the order between |
| `StatsSpec.DeltasOfOrdered` | avbperf/avb_stats.c:192-196 | between neighbours whose presentation times do not go back the delta is their true distance |
| `StatsSpec.ExtremesCorrect` | avbperf/avb_stats.c:125-130 | the folds from the initial statistic are the true minimum and maximum |
| `StatsSpec.MeanExactIff` | avbperf/avb_stats.c:132-136 | the reported mean is the floor of the true mean exactly when the sum does not wrap (up to 2^64 elements) |
| `StatsSpec.MeanBetween` | avbperf/avb_stats.c:123-136 | the mean lies between minimum and maximum |
| `Stats.Stat.Process` | avbperf/avb_stats.c:123-136 | the loop computes these folds; with no elements the division traps |
| `Stats.StatsHandler.Push` | avbperf/avb_stats.c:60-74 | the linked stack refines a sequence extended at the front |
| `Stats.StatsHandler.AddDropped` | avbperf/avb_stats.c:53-59 | losses before the first packet are ignored |
| `Stats.StatsHandler.GetFirst` | avbperf/avb_stats.c:76-91 | finds the earliest push |
| `Stats.StatsHandler.GetLast` | avbperf/avb_stats.c:93-101 | finds the latest push |
| `Stats.StatsHandler.FillArrays` | avbperf/avb_stats.c:174-200 | the walk fills all n travel times and exactly the n-1 deltas |
| `Stats.StatsHandler.ProcessStats` | avbperf/avb_stats.c:146-206 | both statistics of the whole stack; no data when empty, a trap with one entry |
| `Session.Session` | avbperf/avb_aaf.c:597-747 | a whole session: the loop's run, the recording of exactly what was played, the stamp and the outcome of the statistics |
| `Session.RecordedIsPrefix` | avbperf/avb_aaf.c:497-529 | recorded bytes followed by queued bytes are the accepted payloads in order |
| `Session.RecordingReadsBack` | avbperf/avb_aaf.c:566-595 | what the recorder leaves on disk parses to the stream's configuration and reads back as recorded |
| `Session.RecordingIsTrue` | avbperf/avb_aaf.c:674-738 | what a reader of the recorder's file gets is a whole-packet prefix of the accepted payloads in the stream's configuration, and the stamp is the talker's capture time of the first (below 2^32 bytes) |
| `Session.EverythingRecorded` | avbperf/avb_aaf.c:674-708 | once enough passes follow, the file begins with all payloads accepted before them, and holds exactly these when the stream has ended |
| `Session.BroadcastRecorded` | avbperf/avb_aaf.c:229-738 | from talker to file: for whatever part of a broadcast is received, the file reads back as the talker's fragments at strictly increasing places, stamped with its clock at the first stored one |
| `Session.LosslessBroadcast` | avbperf/avb_aaf.c:229-738 | a broadcast that arrives whole, in order and in time is recorded whole: the file reads back as all the talker's fragments |

## Left out

- Sockets, poll, ioctl, ALSA, the terminal, argument parsing and printing: a pass of the loop is given the packet it receives and whether the timer had expired, so every interleaving is covered. Runs end after any event, which stands for the session timer and the escape key.
- Failing system calls and allocations, which end the loop or a library call early.
- AVTP field access: a packet carries its sequence number, time stamp and payload, and two flags for the fields checked before and after the sequence number. Its payload has the agreed length, as the size check after recv ensures.
- The hardware latency in nanoseconds (a float expression) is a number in the settings; the standard deviation, which squares unsigned differences in floating point, is not modelled.
- The granted sound-card period is taken to equal the requested one, so a packet is whole frames of the configured size.
- stdio buffering and partial transfers: a stream is a byte sequence with a position, and every transfer is whole. File names, renaming and time formatting are not modelled; the stamp is.
- The extensible WAV format, channel masks, sub-formats and the valid-bits setter. SetFormat is not defined for the extensible tag.
- Chunks larger than the record they are read into (format over 40 bytes, fact over 4): the parser's outcome is Overrun and nothing is said after it. What a failed parse leaves in the chunk records is not stated.
- PaddedParsesIff: for RIFF files with an odd chunk before the last, only where the loop goes on is stated (OddHidesNext). What it meets there depends on the bytes of chunk bodies, and it may fall back into place (Resynchronises).
- Overflow of `long` in seek offsets and of file positions: positions are unbounded.
- Setters beyond sixteen-bit block alignment or bits per sample: the state functions truncate as the source does, but consistency and commutation are stated for settings that fit.
- The trivial accessors and wrappers (getters, rewind, flush, reopen, close), custom allocators and error-message text.
- The camera tools, the clock-synchronisation scripts, the plots and the switch and test scripts of the repository.
