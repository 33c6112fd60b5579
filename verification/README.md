# Verified models of the dbox2 tools and drivers

This project models the parts of the repository with the most state and arithmetic, and proves what
they promise. Each module stands for one component:

| component | modules |
|---|---|
| grab's Remuxer: MPEG-2 PES packets in, 2048-byte program packs out | `PesPackets`, `PesScanner`, `AudioInput`, `VideoInput`, `Merge`, `Pacing`, `Packs`, `PackWriter`, `Recording`, `FileStamps` |
| ggrab: ring buffer, picture list, packetiser, multiplex schedule | `CBuffers`, `VideoList`, `VideoListing`, `VideoTaking`, `VideoPacker`, `Scheduler` |
| time stamps of both programs | `Clock` |
| JFFS2 "rtime" compression | `Rtime` |
| CRC-32 and the flash image builder | `CrcTable`, `Crc32`, `UsbImage` |
| IDE block transfers through the CPLD FIFO | `IdeFifo` |
| SD/MMC block transfers over port pins | `Mmc` |
| mkdvd's UDP reassembly window | `UdpWindow` |
| event driver and remote control driver | `EventQueue`, `RemoteControl` |

`Bytes`, `Arithmetic` and `Options` hold what several of them share. Code that changes state step by
step is modelled by classes and methods with loops, and each is proved against functions and
predicates on values; the main results are lemmas about those, or the contracts of methods that
perform whole runs. `dafny verify dfyconfig.toml` verifies everything.

Conventions. Doubles are `real`. Masks and shifts are quotients and remainders of powers of two,
except in the CRC and SD/MMC modules, which use bit vectors. Threads are steps at the boundaries of
their critical sections. What other threads, the drive, the card, the network or the clock do is a
parameter that every statement quantifies over.

Main results, one line each:

- `PackWriter.Remuxer.WriteAll`: whatever is written and flushed, the file consists of 2048-byte packs that an independent demultiplexer takes apart into exactly the supplied elementary streams.
- `Rtime.RoundTrip` with `Rtime.Compress` and `Rtime.Decompress`: the codec's round trip, overlapping copies included.
- `CBuffers.CBuffer.SearchStreamId`: the start code search finds the first match of the stream across the ring's end while other threads fill and discard, and waits exactly as long as there is none to read.
- `VideoList.EveryRunIsSafe`, `VideoListing.EveryRunLists`, `VideoTaking.EveryRunTakes`: no interleaving of reader, parser and multiplexer reaches an underrun exit; the pictures listed are those of one scan of the stream, and the multiplexer gets exactly their bytes, in order.
- `VideoPacker.VideoPacker.MakePacks`: ggrab's packs carry the pictures in order with zeros only between them, time stamps inserted late included.
- `Merge.EveryRunMerges`, `Pacing.WriteEndsIff`: between resyncs the output is the merge of both streams by the sender's time, and a resync comes exactly at a jump in time.
- `AudioInput.AudioBuffer.SupplyAudioData`, `VideoInput.VideoBuffer.SupplyVideoData`: incremental parsing equals one scan of the whole stream, and every packet queued has its data and its time from there.
- `Recording.RecordInput`: from the data received to the file: audio and video of the file are one stretch each, without a gap, of what was picked.
- `FileStamps.RecordInTime`: in the file of every run each time stamp and clock reference is that of the packet written, they never decrease, and each packet is read in time before it is shown.
- `Mmc`: the optimised and the plain SD/MMC transfers mean the same for every card.
- `Crc32`, `UsbImage`: the unrolled, bytewise and bit-serial forms agree, and no damage within four bytes of an image goes unnoticed.
- `IdeFifo.Cpld.Insw`: the block read draws exactly the words asked for under every timing of the CPLD.
- `UdpWindow.StreamWindow.Record`: packets are written in number order whatever order they arrive in.

## Where the code does not do what one would expect

Each of these is a theorem, with the exact condition.

- With no audio stream chosen, audio_packet_wanted takes a packet with stream id 0 for audio (`AudioInput.ChoiceIsOneStream`, `AudioInput.ZeroPasses`).
- write_mpg wants the video to start before the audio, but across a wrap of the clock it can accept audio that starts first (`Merge.AudioFirst`, `Merge.AudioFirstHappens`); the difference to the new start of the clock is then negative.
- The search for a sync point can pass one over: dropping a pair, and across a wrap of the clock also dropping a single audio packet. For each decision the exact condition is one on the stamps further back (`Merge.PairDropSkipsIff`, `Merge.AudioDropSkipsIff`, `Merge.VideoDropSkipsNone`, `Merge.RisingSkips`; inputs: `Merge.DropBothSkips`, `Merge.WrapSkips`), and the whole search passes one over iff one of its decisions meets its condition (`Merge.SearchSkipsIff`).
- While a video packet stamped just before a wrap is at the head of its queue, all audio stamped behind the wrap is dropped, until the queue is empty (`Merge.AudioRunsOutIff`).
- At the first start the clocks are -1, and so is pts_diff: the playing time becomes -1 tick (`Merge.Multiplexer.FindSyncPoint`). Until the next resync every stamp then has a negative double converted to an unsigned integer, which C leaves undefined; `PackWriter.Ticks` takes it as 0.
- A run that lasts longer than 2^31 ticks (6 hours and 37 minutes) loses its time stamps: they fall back to the beginning (`FileStamps.LongRun`).
- ggrab's fill_pes_pts is exact only for multiples of 128 (`Clock.LossyPtsLoss`).
- A pack of ggrab that begins exactly at a picture boundary without a stamp due carries the stamp of its second picture (`VideoPacker.VideoPacker.FillVideoPp`, `VideoPacker.WrongStamp`).
- fill_pp_scr stores 0 instead of the last tick before the 33-bit clock wraps (`Scheduler.FillScrReads`).
- The rtime codec's table of shorts is large enough for all data of a length iff that is at most 32768 (`Rtime.ShortsSuffice`, `Rtime.Overflows`).
- dboxide_insw reads too many words unless the count is below four or a multiple of four (`IdeFifo.Cpld.Insw`), and the loop of dboxide_outsw ends only for multiples of four (`IdeFifo.OutswStops`); its branch for a remainder of two is never reached.
- The CRCs of an image start from an all-zero register, so they do not see bytes in front of the data that leave it at zero, above all zeros (`UsbImage.PrefixIsUnseen`, `UsbImage.ShortPrefixIsUnseen`, `UsbImage.LeadingZeros`).
- With both remotes in use the key events can become nonsense, because the two share one timer (`RemoteControl.Remotes.HandleOld`, `RemoteControl.Remotes.HandleNew`, `RemoteControl.TwoRemotes`).

## Model

| member | source | states |
|---|---|---|
| `Clock.PtsRoundTrip` | hostapps/grab/Remuxer.h:361-400 | a PTS written into a PES header reads back modulo 2^32 with grab's reader and on all 33 bits with ggrab's |
| `Clock.LossyPtsLoss` | hostapps/ggrab/tools.cpp:56-78 | ggrab's writer loses 0 to 96 ticks, by this formula, and is exact iff the time is a multiple of 128 |
| `Clock.ScrRoundTrip` | hostapps/ggrab/tools.cpp:40-54 | clock_ref reads back every stored SCR modulo 2^32 |
| `Clock.PtsDiffAntisymmetric` | hostapps/grab/Remuxer.h:65-93 | pts_diff changes its sign when its arguments are swapped |
| `Clock.PtsDiffAcrossWrap32` | hostapps/grab/Remuxer.h:65-93 | pts_diff recovers every difference below 2^31 of a clock wrapping at 2^32, also half a lap beyond the wrap |
| `Clock.PtsDiffAcrossWrap33` | hostapps/grab/Remuxer.h:65-93 | the same for a clock wrapping at 2^33 |
| `PesPackets.StampedPesReads` | hostapps/grab/Remuxer.h:349-400 | a packet built with set_pes_pts has the size, payload and time that pes_size and pes_pts read |
| `Packs.DemuxEncoded` | hostapps/grab/Remuxer.cpp:1096-1150 | any list of encoded PES packets, followed by anything readable, demultiplexes to exactly those packets |
| `Packs.DemuxEncodedPack` | hostapps/grab/Remuxer.cpp:965-1150 | a whole pack, padded or not, demultiplexes to the packets it was built from |
| `PackWriter.PieceSize` | hostapps/grab/Remuxer.cpp:1080-1098 | every packet has payload, fits, and leaves its pack either full (by stuffing) or with at least 20 bytes of room |
| `PackWriter.PieceStamp` | hostapps/grab/Remuxer.cpp:1044-1078 | a piece has a stamp iff the packet has a time and a stamp is asked for - for a piece behind the first one, for all, with a duration that is not negative; its value is the time of its place in the packet |
| `PackWriter.Remuxer.WriteRound` | hostapps/grab/Remuxer.cpp:965-1166 | one loop round adds one packet with the next non-empty piece, its stamp and, for a new pack, the SCR of where it starts |
| `PackWriter.Remuxer.SystemPack` | hostapps/grab/Remuxer.cpp:1002-1042 | the system header pack is one 2048-byte block without elementary stream data |
| `PackWriter.Remuxer.FlushPp` | hostapps/grab/Remuxer.cpp:1175-1211 | flushing pads and writes the open pack and changes nothing that was sent |
| `PackWriter.Remuxer.WritePesInPp` | hostapps/grab/Remuxer.cpp:948-1173 | the loop terminates; the pieces cover the data in order, stamped wherever a stamp is asked for; a system header is written iff it is asked for and a pack is opened, once, in front of the first new pack and with its clock reference; the clock advances by the duration |
| `PackWriter.CutStream` | hostapps/grab/Remuxer.cpp:948-1173 | the pieces of a call together are its data for its stream id and nothing for any other |
| `PackWriter.CallShows` | hostapps/grab/Remuxer.cpp:948-1173 | what a demultiplexer reads of a call is its data, with a stamp on every piece that asks for one |
| `PackWriter.DemuxFile` | hostapps/grab/Remuxer.cpp:1168-1211 | the written blocks demultiplex to the packets of their packs, in order |
| `PackWriter.Remuxer.FileIsWhatWasSent` | hostapps/grab/Remuxer.cpp:1175-1211 | after a flush the file holds every packet sent so far, in blocks of 2048 bytes |
| `PackWriter.Remuxer.WriteAll` | hostapps/grab/Remuxer.cpp:948-1211 | for any sequence of calls, demultiplexing the file gives for every stream id exactly the supplied data, and call by call the stamps asked for; if system headers are asked for right after flushes, there is one pack of them for each such call with data |
| `PesScanner.FindNextPesPacket` | hostapps/grab/Remuxer.cpp:109-185 | the packet found is the first one and lies inside the data; what is skipped can be no packet; the search stops early only after an invalid header |
| `PesScanner.WalkScan` | hostapps/grab/Remuxer.cpp:329-415 | what was passed step by step, followed by a scan of the rest, is a scan of the whole stream |
| `AudioInput.AudioPerPes` | hostapps/grab/Remuxer.cpp:205-221 | pieces fit a pack and, below the maximum, hold whole frames of a size that divides the data |
| `AudioInput.LastDivisorWins` | hostapps/grab/Remuxer.cpp:205-221 | of several frame sizes that divide the data the last one counts, and as many frames as fit are taken |
| `AudioInput.PiecesCover` | hostapps/grab/Remuxer.cpp:189-299 | the pieces of an audio packet concatenate to its data, are well formed and fit one pack |
| `AudioInput.PiecesAreCut` | hostapps/grab/Remuxer.cpp:189-299 | read as packets, the pieces hold whole frames or the rest, are marked as starts and stamped with their part of the duration |
| `AudioInput.AudioBuffer.CreateAudioPes` | hostapps/grab/Remuxer.cpp:189-299 | cutting terminates, stamps every piece for where it starts and keeps the newest 200 packets |
| `AudioInput.AudioBuffer.AudioPacketWanted` | hostapps/grab/Remuxer.cpp:304-325 | a packet is wanted iff its stream is the wanted one once the question is answered; the wanted stream changes only from none, to the id of an audio packet |
| `AudioInput.ChoiceIsOneStream` | hostapps/grab/Remuxer.cpp:304-325 | the packets taken are exactly those of the stream chosen in the end iff none with stream id 0 was taken before a stream was chosen (or none ever was) |
| `AudioInput.ZeroPasses` | hostapps/grab/Remuxer.cpp:304-325 | with no stream chosen, a packet with stream id 0 and an audio packet behind it are both taken for audio, whatever follows |
| `AudioInput.ZeroPacket` | hostapps/grab/Remuxer.cpp:109-185 | three packets, all with data, with which that happens |
| `AudioInput.AudioBuffer.FindSecond` | hostapps/grab/Remuxer.cpp:345-400 | the packet found is the first wanted one from there on and its stream is wanted then; none is found only if an invalid header or the end of the data comes first |
| `AudioInput.MadeCovers` | hostapps/grab/Remuxer.cpp:329-415 | what is made packet by packet is all of the picked data |
| `AudioInput.AudioBuffer.SupplyAudioData` | hostapps/grab/Remuxer.cpp:329-415 | however the data is divided among calls, the packets passed are a prefix of one scan of the stream; those cut are the wanted ones among them, packet by packet from the initial choice on, each into pieces stamped with their part of the time to the next packet of the scan that is wanted with it; the loop stops only where more data is needed, behind an invalid header in the stretch just searched, or at a wanted packet whose successor cannot be found yet for one of these reasons; no packet queued before is lost but the oldest beyond 200 |
| `VideoInput.FindNextVideoPacket` | hostapps/grab/Remuxer.cpp:419-520 | the sequence found is the first one, lies inside the data and ends at the next sequence start code; what is skipped holds none; the search stops early only behind an implausible header |
| `VideoInput.PassedScan` | hostapps/grab/Remuxer.cpp:859-908 | the sequences passed step by step, followed by a scan of the rest, are a scan of the whole stream |
| `VideoInput.FindPicEnd` | hostapps/grab/Remuxer.cpp:524-537 | the next picture start code or the end of the data |
| `VideoInput.VideoPiecesCover` | hostapps/grab/Remuxer.cpp:579-690 | the packets of a sequence concatenate to it and their lengths fit 16 bits |
| `VideoInput.PicturesAreCut` | hostapps/grab/Remuxer.cpp:579-690 | read as packets, the pieces of a sequence are parts of one picture each, marked where the sequence starts and stamped for their place in the picture |
| `VideoInput.HoldsBytes` | hostapps/grab/Remuxer.cpp:859-908 | what is made sequence by sequence is all the bytes of those that have a time |
| `VideoInput.VideoBuffer.CreateVideoPes` | hostapps/grab/Remuxer.cpp:579-690 | every packet holds a part of one picture, stamped by its place in it, and frame_pts advances once per picture |
| `VideoInput.VideoBuffer.SupplyVideoData` | hostapps/grab/Remuxer.cpp:859-908 | however the data is divided among calls, the sequences found are the beginning of one scan of the stream, each with its time; those with a time are cut, and the packets made are theirs, stamped from that time on; frame_pts is left behind the last picture; the data kept needs more, or lies behind an implausible header in the stretch just searched |
| `Merge.RoundFollowsTime` | hostapps/grab/Remuxer.cpp:1320-1501 | a round that writes takes the packet due next, across clock wraps, and leaves the clock at the one due after it |
| `Merge.MergedIsSorted` | hostapps/grab/Remuxer.cpp:1320-1501 | a merge of two steady streams is in time order |
| `Merge.MergedKeepsStreams` | hostapps/grab/Remuxer.cpp:1320-1501 | a merge keeps every packet of both streams, each in its order |
| `Merge.EveryRunMerges` | hostapps/grab/Remuxer.cpp:1320-1501 | in every run from a resync on, the output is that merge, each packet written with the clock at its due time, and the clock stands at the due time of the next packet |
| `Merge.NoRunEnds` | hostapps/grab/Remuxer.cpp:1370-1393 | with steps of at most a second no run ends in a resync |
| `Merge.AllButTheLastAreWritten` | hostapps/grab/Remuxer.cpp:1320-1501 | and each call writes until fewer than three packets of one kind are left |
| `Merge.RoundsAreWrites` | hostapps/grab/Remuxer.cpp:1320-1501 | one call of the loop is a run of rounds of that machine, with the same output, queues and clock |
| `Merge.Multiplexer.FindSyncPoint` | hostapps/grab/Remuxer.cpp:1215-1318 | packets are dropped from the front until both queues can start together; then the clock is the video time stamp and the playing time has the length of the last run added, or -1 when there was none; a sync point is skipped on the way iff one of the decisions meets its condition |
| `Merge.SyncPointStarts` | hostapps/grab/Remuxer.cpp:1276-1299 | every sync point of two steady streams starts such a run: with suitable laps of the clock the packets are less than 90000/22 ticks apart |
| `Merge.SyncPointMerges` | hostapps/grab/Remuxer.cpp:1215-1501 | what write_mpg writes from a sync point on is the merge of the queues, up to the laps that the program cannot know |
| `Merge.AudioFirst` | hostapps/grab/Remuxer.cpp:1256-1290 | the audio packet of a sync point is the earlier one iff the clock has wrapped between the two |
| `Merge.AudioFirstHappens` | hostapps/grab/Remuxer.cpp:1256-1290 | time stamps with which it is, by 15 ticks |
| `Merge.SyncPointStamps` | hostapps/grab/Remuxer.cpp:1256-1284 | a sync point by the stamps alone: the video's is the smaller number, and they are less than 90000/22 ticks apart, directly or across the wrap |
| `Merge.AudioDropSkipsIff` | hostapps/grab/Remuxer.cpp:1227-1271 | dropping a single audio packet skips a sync point iff it is startable and its stamp meets that of a video sequence start further back |
| `Merge.VideoDropSkipsNone` | hostapps/grab/Remuxer.cpp:1256-1278 | dropping a single video packet skips none |
| `Merge.PairDropSkipsIff` | hostapps/grab/Remuxer.cpp:1302-1306 | dropping a pair skips one iff the stamp of one of the two meets that of a sequence start, or of a startable audio packet, further back |
| `Merge.RisingSkips` | hostapps/grab/Remuxer.cpp:1227-1307 | away from a wrap of the clock a decision skips one iff it drops a pair and a sequence start further back is stamped less than 90000/22 ticks before the audio packet |
| `Merge.SearchSkipsIff` | hostapps/grab/Remuxer.cpp:1227-1307 | the whole search skips a sync point iff one of its decisions does |
| `Merge.AudioRunsOutIff` | hostapps/grab/Remuxer.cpp:1227-1271 | a video packet stays at the head until the audio queue is empty iff no startable audio packet has a greater stamp |
| `Merge.WrapSkips` | hostapps/grab/Remuxer.cpp:1267-1271 | three packets at a wrap of the clock, the video's 8 ticks apart: the audio packet is dropped and the queue runs empty, though it is a sync point with the second video packet |
| `Merge.DropBothSkips` | hostapps/grab/Remuxer.cpp:1302-1306 | three packets with which that happens: the dropped audio packet and the next video packet are a sync point |
| `Merge.Multiplexer.WriteRounds` | hostapps/grab/Remuxer.cpp:1320-1501 | the loop does what Rounds computes |
| `Merge.Multiplexer.WriteMpg` | hostapps/grab/Remuxer.cpp:1215-1501 | synchronise if needed, from where the search for a sync point ends, then the rounds; a resync leaves both queues empty |
| `Pacing.EmitExactly` | hostapps/grab/Remuxer.cpp:1394-1497 | what a round hands over: the clock, the time to the next packet due and the time to the next packet of the same kind |
| `Pacing.EveryRunIsPaced` | hostapps/grab/Remuxer.cpp:1320-1501 | in every run each packet's durations are at most a second and reach at most to what is written next, and every clock is one for the packet's due time and never more than half a lap ahead |
| `Pacing.WriteEndsIff` | hostapps/grab/Remuxer.cpp:1369-1393 | in every run a write step ends in a resync iff three packets of each kind are queued and the heads are due more than a second apart, or the clock is more than a second away from the video, or the next packet of a kind is more than a second later |
| `Pacing.CallEndsIff` | hostapps/grab/Remuxer.cpp:1320-1501 | and so does a call of write_mpg iff it comes to such a place |
| `Recording.SuppliedIsEmitted` | hostapps/grab/Remuxer.cpp:1447-1497 | what the emissions hand to write_pes_in_pp, with the flushes before packets marked as starts, is for every stream the data of its packets in order |
| `Recording.HeadsAreStarts` | hostapps/grab/Remuxer.cpp:1447-1466 | a system header is asked for at every sequence start, right after a flush, and nowhere else |
| `Recording.EsOfAllInside` | hostapps/grab/Remuxer.cpp:1215-1501 | the data of the packets written is a stretch of the data of all packets made, beginning where that of the dropped ones ends |
| `Recording.RecordRun` | hostapps/grab/Remuxer.cpp:948-1501 | for every run, the file demultiplexes for every stream id to the data of the packets written, in order, and has one system header pack for every sequence start |
| `Recording.RecordInput` | hostapps/grab/Remuxer.cpp:189-1501 | end to end: audio and video of the file are one stretch each of the data of the audio packets picked and of the video sequences cut, from wherever the run began, even inside a picked packet |
| `FileStamps.StampIs` | hostapps/grab/Remuxer.cpp:1044-1078 | there is a stamp iff the call asks for one; it is the packet's time since the start of the clock, seen through its wrap, plus the piece's part of the duration |
| `FileStamps.ScrIs` | hostapps/grab/Remuxer.cpp:974-982 | the same for a pack's clock reference; a stamp is at least 8000 ticks behind it |
| `FileStamps.RunRises` | hostapps/grab/Remuxer.cpp:948-1501 | the packets sent for all calls of a run have their stamps and clock references in order |
| `FileStamps.RunShown` | hostapps/grab/Remuxer.cpp:948-1501 | for every packet written the file shows its data; all pieces of audio packets and the first piece of every sequence start are stamped, with the time sent, and no others |
| `FileStamps.RunClocks` | hostapps/grab/Remuxer.cpp:948-1501 | every pack opened for a packet has the clock reference of its due time, advanced by its part of the time to the next packet due |
| `FileStamps.RecordInTime` | hostapps/grab/Remuxer.cpp:948-1501 | in the file of any run shorter than 2^31 ticks these are the stamps and clock references; the stamps of every stream and the packs' clock references never decrease, and every stamp is at least 8000 ticks behind the clock reference of its pack and of all packs before |
| `FileStamps.LongRun` | hostapps/grab/Remuxer.h:65-93 | the time since the start is computed correctly iff it is below 2^31 ticks; beyond that it counts as none |
| `CBuffers.CBuffer.GetNextFillBuffer` | hostapps/ggrab/cbuffer.cpp:34-54 | grants the largest contiguous space that keeps the occupancy below the size |
| `CBuffers.SpaceIsGrant` | hostapps/ggrab/cbuffer.cpp:34-54 | what may be committed is exactly what fits the contiguous space |
| `CBuffers.CBuffer.Deposit` | hostapps/ggrab/pesstream.cpp:663-704 | writing into granted space overwrites no live byte |
| `CBuffers.CBuffer.CommitFillBuffer` | hostapps/ggrab/cbuffer.cpp:56-69 | the committed bytes are appended to the logical stream |
| `CBuffers.CBuffer.DiscardToPtr` | hostapps/ggrab/cbuffer.cpp:76-95 | succeeds iff the pointer is inside the live window, and moves no live byte |
| `CBuffers.CBuffer.CopyBuffer` | hostapps/ggrab/cbuffer.cpp:212-265 | returns exactly stream[ptr..ptr+len), across the wrap as well |
| `CBuffers.CBuffer.RemovePadding` | hostapps/ggrab/cbuffer.cpp:268-307 | trims trailing zeros only and keeps up to four of them |
| `CBuffers.ShadowStretch` | hostapps/ggrab/cbuffer.cpp:110-209 | with three bytes repeated behind the array's end a wrapping stretch can be read in one go |
| `CBuffers.CBuffer.SearchRound` | hostapps/ggrab/cbuffer.cpp:130-195 | one round decides further positions correctly and reports a match at its logical position |
| `CBuffers.NoneSeen` | hostapps/ggrab/cbuffer.cpp:110-209 | a search that waits each time it is stuck, and gives up so, had no start code to read at any time |
| `CBuffers.CBuffer.SearchStreamId` | hostapps/ggrab/cbuffer.cpp:110-209 | the match reported is the first at or after ptr, none means there is none in len positions, under any commits and legal discards during the waits; it waits only while there is nothing to read that matches, gives up only after all waits, and leaves the buffer as the other threads made it |
| `CBuffers.CBuffer.PointersAreCountersModSize` | hostapps/ggrab/cbuffer.cpp:34-95 | array pointers are the logical counters modulo the size and meet only when the buffer is empty |
| `VideoList.NextKeeps` | hostapps/ggrab/list.cpp:26-84 | every step of reader, parser and multiplexer keeps the invariant |
| `VideoList.EveryRunIsSafe` | hostapps/ggrab/list.cpp:26-84 | in every run no call exits with an underrun, the list never overflows, and the pictures listed are ordered, disjoint and delimited by video headers |
| `VideoListing.ParseTells` | hostapps/ggrab/list.cpp:26-84 | no step of the parser leaves the scan, in whatever way the stream goes on |
| `VideoListing.EveryRunLists` | hostapps/ggrab/list.cpp:26-84 | in every run the pictures listed are the first ones of one scan of the stream: from the first sequence start behind a stamped video header on, each ends at the next video header, the next one begins at the next start code, and each has the stamp of the header before it and the flag of its start code |
| `VideoListing.NextIsListed` | hostapps/ggrab/list.cpp:26-84 | while the scan has a picture more and the list has room, the parser alone can list it |
| `VideoTaking.EveryRunTakes` | hostapps/ggrab/pesstream.cpp:160-180 | in every run the multiplexer has copied exactly the bytes of the pictures it has taken, in the order of the list, and the beginning of the next one |
| `VideoTaking.FirstIsTaken` | hostapps/ggrab/pesstream.cpp:160-180 | the multiplexer alone can take whatever is listed first |
| `VideoPacker.LayStamp` | hostapps/ggrab/pesstream.cpp:212-217 | memmove by five bytes and rewriting the header inserts a time stamp and keeps the payload |
| `VideoPacker.LayReads` | hostapps/ggrab/pesstream.cpp:143-221 | a full pack is one PES packet with a matching length to a demultiplexer |
| `VideoPacker.VideoPacker.NextPic` | hostapps/ggrab/pesstream.cpp:176-219 | at a picture's end zeros are stored before a sequence start or in a rest below 30 bytes, otherwise a missing stamp is inserted |
| `VideoPacker.VideoPacker.FillVideoPp` | hostapps/ggrab/pesstream.cpp:100-222 | fills the pack exactly; says which picture the stamp belongs to, and that it is the first one begun iff a stamp was due or the pack began inside a picture; sequence starts only begin packs |
| `VideoPacker.MarkHolds` | hostapps/ggrab/pesstream.cpp:100-222 | a pack is stamped for a picture that begins in it and before which none begins behind its first byte; without a stamp none begins inside it |
| `VideoPacker.VideoPacker.MakePack` | hostapps/ggrab/tools.h:34-94 | one pack of 2048 bytes with a complete pack header that demultiplexes to one packet with the payload added to what was sent and the stamp of the picture marked |
| `VideoPacker.VideoPacker.MakePacks` | hostapps/ggrab/pesstream.cpp:100-222 | any number of packs begin with the clock references given; their payloads are the pictures in order with runs of zeros only between pictures, and each is stamped for a picture as above |
| `VideoPacker.ReachBoundary` | hostapps/ggrab/pesstream.cpp:100-222 | a pack boundary can fall on a picture boundary with no stamp due |
| `VideoPacker.WrongStamp` | hostapps/ggrab/pesstream.cpp:143-222 | from there the next pack is stamped with the time of its second picture |
| `Scheduler.Multiplexer.Choose` | hostapps/ggrab/ggrab.cpp:446-457 | the first stream with the least wanted time below 2^33 is chosen, or the last choice stands when there is none |
| `Scheduler.ScrMeetsDemands` | hostapps/ggrab/ggrab.cpp:474-480 | the SCR of pack k is at least k*D and at least w_j + (k-j)*D for every j up to k |
| `Scheduler.ScrIsDemanded` | hostapps/ggrab/ggrab.cpp:474-480 | and equals one of these, so it is their maximum |
| `Scheduler.ScheduleIsAdmissible` | hostapps/ggrab/ggrab.cpp:474-480 | no pack precedes its wanted time and packs are at least D apart |
| `Scheduler.ScheduleIsEarliest` | hostapps/ggrab/ggrab.cpp:474-480 | no schedule with these two properties writes any pack earlier |
| `Scheduler.OrderIsSorted` | hostapps/ggrab/ggrab.cpp:446-486 | if every stream's wanted times are sorted, so is the order of writing |
| `Scheduler.Multiplexer.Rounds` | hostapps/ggrab/ggrab.cpp:440-486 | every stream's packs are written in order and without gaps, each chosen as wanted first, at those times |
| `Scheduler.FillScrReads` | hostapps/ggrab/tools.cpp:91-112 | for every non-negative reference the stored SCR reads back modulo 2^32 iff it is not within the last tick before the wrap |
| `Rtime.ToShort` | hostapps/mkfs.jffs2/compr_rtime.c:32-47 | a position below 65536 survives being stored as a short iff it is below 32768 |
| `Rtime.ShortsSuffice` | hostapps/mkfs.jffs2/compr_rtime.c:32-47 | all table entries read fit a short in all data of a length iff that length is at most 32768 |
| `Rtime.Overflows` | hostapps/mkfs.jffs2/compr_rtime.c:32-47 | for every greater length, data in which the encoder reads an entry that is negative as a short |
| `Rtime.Compress` | hostapps/mkfs.jffs2/compr_rtime.c:29-66 | computes Pack, and reports success with its lengths iff the result is shorter |
| `Rtime.Decompress` | hostapps/mkfs.jffs2/compr_rtime.c:69-102 | produces the meaning of the tokens and leaves the bytes behind destlen alone |
| `Rtime.CopyBack` | hostapps/mkfs.jffs2/compr_rtime.c:86-99 | the overlapping branch and the memcpy branch are one byte-by-byte copy |
| `Rtime.CopyRunDisjoint` | hostapps/mkfs.jffs2/compr_rtime.c:95-98 | without overlap that copy is a memcpy |
| `Rtime.EncodeKeepsMeaning` | hostapps/mkfs.jffs2/compr_rtime.c:38-55 | each encoder round keeps the packed bytes a faithful encoding with both tables in lockstep |
| `Rtime.UnpackGrows` | hostapps/mkfs.jffs2/compr_rtime.c:78-101 | the output length fixes how many tokens are read |
| `Rtime.RoundTrip` | hostapps/mkfs.jffs2/compr_rtime.c:29-102 | what Pack produces expands to exactly the prefix it reports, reading all of it |
| `CrcTable.TableIsSerial` | hostapps/mkdnimg/crc32.c:8-61 | each of the 256 entries is eight steps of the shift register |
| `Crc32.RawCrc32` | hostapps/mkfs.jffs2/crc32.h:12-19 | the bytewise loop computes Raw |
| `Crc32.UnrolledCrc32` | hostapps/mkdnimg/crc32.c:64-88 | the eight-fold unrolled loop computes the complemented bytewise form; a null pointer gives 0 |
| `Crc32.Chaining` | hostapps/mkdnimg/crc32.c:70-88 | crc32(crc32(c, a), b) = crc32(c, a + b) |
| `Crc32.UpdateIsSerial` | hostapps/mkdnimg/crc32.c:64-64 | a table update is eight register steps after exclusive-oring the byte in |
| `Crc32.RawIsSerial` | hostapps/mkfs.jffs2/crc32.h:12-19 | the bytewise form equals the register fed bit by bit |
| `Crc32.BurstIsSeen` | hostapps/mkdnimg/crc32.c:70-88 | any non-zero error pattern of up to 32 bits, anywhere, changes the register |
| `Crc32.CrcSeesBurst` | hostapps/mkdnimg/crc32.c:70-88 | and so the checksum of a message |
| `Crc32.CrcSeesFourBytes` | hostapps/mkdnimg/crc32.c:70-88 | messages of equal length that differ only within four consecutive bytes have different checksums |
| `UsbImage.WriteData` | hostapps/mkdnimg/mkusbimg.c:135-158 | data_crc is the checksum of the data however the reads divide it |
| `UsbImage.WriteHeader` | hostapps/mkdnimg/mkusbimg.c:165-186 | the header page has the checksum of its own rest in front, whatever its place held before |
| `UsbImage.MkUsbImg` | hostapps/mkdnimg/mkusbimg.c:77-198 | the program fails only when a read delivers nothing, otherwise its image is accepted and has data and fields in their places |
| `UsbImage.BuiltIsAccepted` | hostapps/mkdnimg/mkusbimg.c:16-36 | an image so put together meets what the header's description promises |
| `UsbImage.DamageIsSeen` | hostapps/mkdnimg/mkusbimg.c:16-36 | changing bytes within any four consecutive ones makes an image unacceptable |
| `UsbImage.PrefixIsUnseen` | hostapps/mkdnimg/mkusbimg.c:135-183 | bytes in front of the data leave its checksum unchanged iff they leave a zero register at zero |
| `UsbImage.ShortPrefixIsUnseen` | hostapps/mkdnimg/mkusbimg.c:135-183 | up to four bytes do iff they are all zero |
| `UsbImage.LeadingZeros` | hostapps/mkdnimg/mkusbimg.c:135-183 | any number of zeros does |
| `IdeFifo.Cpld.WaitFull` | driver/ide/main.c:242-246 | polling ends with a full FIFO and takes nothing out of it |
| `IdeFifo.Cpld.InswShort` | driver/ide/main.c:203-213 | fewer than four words are read one at a time |
| `IdeFifo.Cpld.Insw` | driver/ide/main.c:199-289 | under every timing the drive's next words are stored in order and the FIFO is left empty; the words drawn are the count rounded up to four, hence exactly the count iff it is below four or a multiple of four |
| `IdeFifo.Cpld.Outsw` | driver/ide/main.c:351-399 | no word is lost, repeated or reordered, and unless the final wait gives up after 1000 polls the drive has received all |
| `IdeFifo.OutswStops` | driver/ide/main.c:373-392 | the 32-bit loop counter reaches zero iff the count is a multiple of four |
| `Mmc.Spi.SpiIo` | driver/mmc/mmccombo.c:332-355 | clocks the byte's bits into the card and returns the card's answers, for any wiring of separate pins (mmc_spi_io_1 and mmc_spi_io_4) |
| `Mmc.WiringsAreApart` | driver/mmc/mmccombo.c:60-68 | wirings 1 and 4 use different pins for select, data, clock and output, which is all the transfers need |
| `Mmc.SentAllIsRead` | driver/mmc/mmccombo.c:332-355 | a card that samples its input at the clock edges reads exactly the bytes sent |
| `Mmc.Spi.Write14` | driver/mmc/mmccombo.c:406-552 | the unrolled writer gives the card the same edges and leaves the pins of others alone |
| `Mmc.Spi.ReadMultiple` | driver/mmc/mmccombo.c:605-651 | the unrolled reader gives the card bytes of ones and returns the same answers (mmc_read_multiple_1 and, with its output pin on port B, mmc_read_multiple_4) |
| `Mmc.Spi.ReadBlockPlain` | driver/mmc/mmccombo.c:846-898 | with opt = 0 a block read has the return code, edge history and data of ReadBlock |
| `Mmc.Spi.ReadBlockFast` | driver/mmc/mmccombo.c:899-943 | with opt = 1 it has the very same, for every card |
| `Mmc.Spi.WriteBlockPlain` | driver/mmc/mmccombo.c:746-793 | with opt = 0 a block write has the return code and edge history of WriteBlock |
| `Mmc.Spi.WriteBlockFast` | driver/mmc/mmccombo.c:794-844 | with opt = 1 it has the very same, for every card |
| `UdpWindow.TableMeansDistance` | hostapps/mkdvd/rec.cpp:58-73 | the table admits reading iff the receiver is at least ten slots ahead on the ring |
| `UdpWindow.CountAtExactly` | hostapps/mkdvd/rec.cpp:363-385 | the slots hold exactly the latest fifteen counts, each in the slot of its residue |
| `UdpWindow.StreamWindow.Receive` | hostapps/mkdvd/rec.cpp:363-393 | which packets are accepted, how the window moves, and that it keeps its invariant |
| `UdpWindow.StreamWindow.Read` | hostapps/mkdvd/rec.cpp:223-265 | the next count is read iff allowed; its complete block is in order, and losses are reported iff there are any (unless packets came late) |
| `UdpWindow.JoinIsOrdered` | hostapps/mkdvd/rec.cpp:223-270 | blocks in order make packets in number order |
| `UdpWindow.StreamWindow.Record` | hostapps/mkdvd/rec.cpp:223-393 | for every arrival order, if the receiver never is more than 14 counts ahead and packets are accepted before their block is read, the file has the packets in number order |
| `EventQueue.PushQueue` | driver/event/event.c:72-82 | writing into a ring appends to its queue iff the event matches and there is room |
| `EventQueue.PopQueue` | driver/event/event.c:167-178 | reading takes the oldest event |
| `EventQueue.EventDriver.OpenFile` | driver/event/event.c:108-130 | opening fails iff five files are open; otherwise there is a free slot |
| `EventQueue.EventDriver.Release` | driver/event/event.c:132-148 | closing frees the slot, and the handle count stays the number of occupied slots |
| `EventQueue.EventDriver.Ioctl` | driver/event/event.c:91-106 | sets the filter of that file and nothing else |
| `EventQueue.EventDriver.WriteMessage` | driver/event/event.c:60-89 | every event is offered to every open file, in order |
| `EventQueue.EventDriver.ReadEvent` | driver/event/event.c:150-211 | delivers the oldest queued event, or says why not and changes nothing |
| `EventQueue.ReceivedInOrder` | driver/event/event.c:60-211 | in every run a reader has received, in order, the first of the events written since it opened the file that matched its filter then while fewer than 32 were waiting; the others are queued |
| `EventQueue.NothingLost` | driver/event/event.c:60-89 | as long as at most 32 matching events were written, these are all of them |
| `RemoteControl.Remotes.KeyUp` | driver/fp/dbox2_fp_rc.c:89-102 | the timer releases the key that is down |
| `RemoteControl.Remotes.HandleOld` | driver/fp/dbox2_fp_rc.c:106-147 | answers a code of the old remote with the right events; the stream stays well formed iff the input does not clash with the other remote |
| `RemoteControl.Remotes.HandleNew` | driver/fp/dbox2_fp_rc.c:149-207 | the same for the new remote |
| `RemoteControl.Remotes.Handle` | driver/fp/dbox2_fp_rc.c:89-207 | with one kind of remote disabled, no input whatever breaks the stream |
| `RemoteControl.StreamIsStrokes` | driver/fp/dbox2_fp_rc.c:89-207 | a well-formed stream is a series of press, repeats, release of one key, the last perhaps unfinished |
| `RemoteControl.StrokesAreIdle` | driver/fp/dbox2_fp_rc.c:89-207 | and every such series is well formed |
| `RemoteControl.BadStays` | driver/fp/dbox2_fp_rc.c:89-207 | a stream that is broken stays broken |
| `RemoteControl.TwoRemotes` | driver/fp/dbox2_fp_rc.c:106-207 | with both remotes in use, a key of each breaks it |

## Left out

- Files, sockets, signals, argument parsing, logging and statistics; fwrite is taken to succeed.
- PackWriter.Remuxer.WriteAll: packets handed over are complete and have any stream id but 0xbb, 0xbe and 0xbf, whose packets a demultiplexer reads in another way; the system header pack is not parsed, since its length field and its overlapping bytes do not describe it.
- PackWriter.Remuxer.WritePesInPp: the conversion of a negative double to an unsigned integer, undefined in C, is taken as 0. This is the usual case: the playing time is -1 from the first start to the next resync.
- AudioInput.AudioBuffer.SupplyAudioData: packets that may be taken for audio must have headers that fit them; the code does not check this either. The buffer is the sequence of its valid bytes.
- VideoInput.VideoBuffer.SupplyVideoData: the frame time heuristics (adjust_frame_pts, aux_to_framepts) are an input, and so is the time they find.
- Merge.EveryRunMerges: consecutive packets of a stream are in order and less than about 50 minutes apart; other streams lead to a resync or to output in another order.
- Merge.Multiplexer.FindSyncPoint: auxiliary packets are left out.
- Merge.Multiplexer.WriteMpg: a resync also empties the input buffers and forgets the wanted audio stream and frame_pts (hostapps/grab/Remuxer.h:247-262); those parts are in other modules.
- Recording.RecordInput: one run, from one resync to the next, with the packets of one audio stream; queues that overflow while it lasts are left out.
- FileStamps.RecordInTime: one run in one file; the playing time before it is less than 2^31 ticks, as the clock reference is read modulo 2^32. The packs of system headers are left out.
- VideoPacker.VideoPacker.MakePacks: the system header that precedes the first packet of a recording is left out (FillVideoPp covers it: it holds wherever in the pack the packet starts), and so are m_scr_wanted and m_correct; a picture's time is taken relative to the recording.
- VideoPacker.VideoPacker.FillVideoPp: the data alignment bit of the PES header is 0; the code clears its start flag before testing it (hostapps/ggrab/pesstream.cpp:137-154).
- CBuffers.CBuffer.RemovePadding: the stretch has been received completely, as the parser makes sure before calling it; the code itself does not check.
- ggrab's audio parser and fill_audio_pp, which reuse the next packet's header bytes.
- VideoList.EveryRunIsSafe: the result of a search is the first match, as the contract of SearchStreamId says; timeouts of the threads are left out, and so are spurious wakeups: the parser waits for room with `if` instead of `while` (hostapps/ggrab/list.cpp:46-51), so that one of them would overflow the list.
- Scheduler.Multiplexer.Rounds: switching output files and termination are left out.
- Rtime.Compress: stated for source lengths up to 32768; Rtime.ShortsSuffice shows that the table of shorts is too small for every greater length.
- Rtime.Decompress: the packed bytes must expand to the requested length, at most 32768, which the C code does not check.
- UsbImage.MkUsbImg: the older header layout and the other image types of mkdnimg.
- IdeFifo.Cpld.Insw: the destination has room for the words that are drawn; the CPLD is assumed not to stop working for ever.
- IdeFifo.Cpld.Outsw: stated for multiples of four; for all other counts the loop does not end.
- Mmc.Spi.ReadBlockFast: wirings 1 and 4; wiring 2, whose data pins are on port A, and port setup and restore are left out.
- UdpWindow.StreamWindow.Receive: the loop counter left over from earlier packets is a free input; packet numbers are not negative; the bookkeeping of super packets for resends is left out.
- EventQueue.EventDriver.ReadEvent: an empty queue is reported as with O_NONBLOCK; blocking is waiting and trying again.
- RemoteControl.Remotes.KeyUp: a handler and the timer do not run at the same time.
- Drivers for AVS, LCD, CAM, I2C and the front processor's other functions, the boot configuration and the library wrappers, which would only add easy members.
