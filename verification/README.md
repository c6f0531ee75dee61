# Verification of the transport core of mpquic-drl

The repository is a multipath version of Google QUIC with schedulers for several paths. This project models its
transport core in Dafny and proves what the code keeps over whole runs:

- reliable streams: the sender's streams, framer and packer, a network that carries packets as bytes, and the
  receiver's unpacker, frame sorter and reads (`SendStream`, `StreamFramer`, `StreamFrame`, `StreamFrameCodec`,
  `PacketPacker`, `PacketUnpacker`, `StreamFrameSorter`, `ReceiveStream`, `StreamDelivery`, `StreamEnd`, and the runs
  of `DeliverySteps`, `SharedFrameRun` and `EarlyEndRun`);
- acknowledgements on a path: histories, ACK and CLOSE_PATH frames on the wire, the record of sent packets,
  STOP_WAITING, and sender, receiver and network together (`ReceivedPacketHistory`, `ReceivedPacketHandler`,
  `AckRanges`, `AckFrame`, `ClosePathFrame`, `SentPackets`, `SentPacketHandler`, `StopWaiting`,
  `PacketNumberGenerator`, `PathSender`, `AckProtocol`);
- retransmission: the framer's queue and the packets of all paths together (`FramePartition`, `SentFrames`,
  `Retransmission`, `RetransmissionSafety`, `DroppedDataRun`);
- flow control and control frames (`FlowController`, `FlowControlManager`, `ControlFrames`);
- scheduling: streams, paths, and the coupling of congestion windows (`StreamsMap`, `StreamTurns`, `Scheduler`,
  `Olia`);
- codecs and data structures below (`Float16`, `PacketNumber`, `ByteOrder`, `IdLists`, `RingList`, `RingListRun`).

Most modules have two layers. The operations are functions on values, and what the code promises is proved about
these functions as lemmas and invariants. Beside them, classes and loops in the form of the source are proved to
compute the same states and results. Time, random numbers, RTT estimates and windows agreed on in the handshake are
parameters; the iteration order of a Go map is an arbitrary sequence. STREAM frames are objects in a store, named by
their index, since packets and the retransmission queue share them and the code changes them in place.

Where code and intention differ, the model follows the code, and a lemma says exactly when the intended property
holds:

- the packer clears the length field of the last frame on the object; if an earlier entry of the packet is the same
  object, the receiver reads the rest of the packet as its data (`PacketUnpacker.ComposedReadBack`,
  `SharedFrameRun.QueuedTwiceRun`; `StreamDelivery.PrefixSafety` holds where no packet does this);
- a frame that is cut in place while it stands in the packet already can make the packet one byte too large
  (`PacketPacker.PayloadFits`, `PacketPacker.QueuedTwiceGrows`), and cutting a frame that is queued twice loses or
  repeats bytes (`StreamFramer.RetransmissionsComplete`);
- packets without forward-secure encryption are not sent again once the handshake is complete, and a client's data in
  them are lost with them (`RetransmissionSafety.NothingForgottenExactly`, `DroppedDataRun.DataDropped`); a server
  sends no data in such packets (`RetransmissionSafety.ServerKeepsAll`);
- the first WINDOW_UPDATE counts even if it lies below the window agreed on, and newly agreed windows count even if
  they are smaller; both can cut off what was sent (`FlowController.WindowOfPeerGrows`,
  `FlowController.UpdateStaysWithin`, `FlowController.FirstUpdateLowers`, `StreamFramer.NegotiatedWithin`,
  `StreamDelivery.WindowSafety`);
- an empty FIN frame that arrives at the offset of a frame still to be read replaces that frame
  (`StreamFrameSorter.FinKeepsChain`, `StreamFrameSorter.FinReplacesFrame`); a sender in this project never sends one
  (`StreamDelivery.PositionSafety`);
- trimming the tail of a frame keeps its FIN bit, so a retransmission can end the stream early
  (`StreamFrameSorter.FinStaysAtEnd`, `StreamEnd.EndMeansAll`, `EarlyEndRun.SplitEndsEarly`);
- an ACK frame whose first gap needs 255 or more blocks cannot be written (`AckFrames.WriteSucceeds`);
- a receive window whose increment exceeds its maximum can move back (`FlowController.WindowMovesForward`,
  `FlowController.WindowCanShrink`);
- the length of a PATHS frame is wrong for more than 84 paths (`ControlFrames.LengthWritten`);
- the packet number generator is meant to skip numbers, but never does, as no first skip is drawn
  (`PacketNumberGenerator.FreshNeverSkips`);
- BLEST and ECF never consult their formulas and always choose like the lowest RTT selector
  (`Scheduler.SelectWithSecondBest`);
- a write after a missed deadline replaces what was not handed out yet (`SendStream.WriteKeeps`,
  `SendStream.WriteLosesByte`).

`dafny verify dfyconfig.toml` checks the whole project.

## Model

| member | source | states |
|---|---|---|
| `StreamDelivery.PrefixSafety` | quic-go/stream_frame_sorter.go:32-161 | Over every run of writes, packet filling, loss, duplication and reordering of packet bytes, retransmission, splitting and reads, in which no packet holds its last frame object twice: what a stream's reader has been given is a prefix of what the stream has handed out. |
| `StreamDelivery.QueuedOnceSafety` | quic-go/stream_framer.go:32-34 | The same for every run in which a frame is queued for retransmission only while it is not queued already: then no packet holds a frame object twice. |
| `SharedFrameRun.QueuedTwiceRun` | quic-go/packet_packer.go:255-263 | A run in which one frame is queued twice: clearing the length field on the shared object makes the receiver read the second entry as data, and the reader is given bytes nobody wrote. |
| `StreamDelivery.FramesCarryContent` | quic-go/stream_framer.go:129-258 | Over every such run, each packet can be read, and each frame in it carries exactly the bytes its stream handed out at its offset, and a FIN only at the end of a stream that hands out no more. |
| `StreamDelivery.PositionSafety` | quic-go/stream.go:149-181 | Over every such run, every sorter stays valid and no read finds its position outside the head frame: a sender never sends an empty FIN on top of a frame still to be read. |
| `StreamDelivery.Progress` | quic-go/stream.go:91-182 | Over every such run, a read that is long enough and does not end the stream has passed on the content exactly up to the first byte in no frame taken from a packet. |
| `StreamDelivery.WindowSafety` | quic-go/stream_framer.go:165-238 | Over every run: in all its states the bytes sent on every stream and on the connection are within the peer's windows, if and only if no step cuts off what was sent, neither a first WINDOW_UPDATE nor, before it, newly agreed windows. |
| `StreamDelivery.ApplyWithin` | quic-go/internal/handshake/connection_parameters_manager.go:127-144 | The same for each step. |
| `StreamEnd.EndMeansAll` | quic-go/stream.go:149-181 | Over every run in which no packet holds its last frame twice: at all times every FIN held by a reader stands at the end of what its stream hands out, and a reader that has seen the end was given everything, if and only if no frame with a FIN is stored after its last byte arrived. |
| `StreamEnd.AddKeepsEnd` | quic-go/stream_frame_sorter.go:96-102 | A frame that is taken keeps FINs at the end of the content, if and only if it is not a frame with a FIN whose last byte came before it. |
| `EarlyEndRun.SplitEndsEarly` | quic-go/stream_frame_sorter.go:96-102 | A run in which no frame is queued twice and the reader sees the end after one byte of two: a frame is sent, split for retransmission, and arrives after its second part. |
| `Retransmission.ApplySafe` | quic-go/scheduler.go:243-296 | A step of sending, acknowledgement, loss, timer or retransmission forgets a byte of a stream, if and only if it drops a packet without forward-secure encryption that held a byte which nothing else holds. |
| `RetransmissionSafety.NothingForgottenExactly` | quic-go/scheduler.go:243-296 | Over every run on any number of paths: in all its states every byte handed out is in a frame queued at the framer, in a tracked or queued packet, or in an acknowledged packet, if and only if no step drops such a packet. |
| `RetransmissionSafety.SettledIsConfirmed` | quic-go/ackhandler/sent_packet_handler.go:188-234 | If no such packet was dropped and nothing is queued or tracked any more, every byte handed out was in a packet, as it was written, that is acknowledged. |
| `RetransmissionSafety.ServerKeepsAll` | quic-go/packet_packer.go:352-357 | A server, which sends data with forward-secure encryption only, never forgets a byte of a data stream. |
| `RetransmissionSafety.BytesAreFrames` | quic-go/stream_framer.go:129-258 | Every byte is in exactly one frame object, so that all bytes are kept if and only if all objects with data are. |
| `DroppedDataRun.DataDropped` | quic-go/scheduler.go:268-272 | A run in which a client sends a byte before encryption is forward-secure, the handshake completes, the packet is to be sent again and is dropped: nothing holds the byte any more, and it was never acknowledged. |
| `FramePartition.ComposePartition` | quic-go/stream_framer.go:129-258 | Whatever is queued, shared, cut in place and made anew for a packet: every byte handed out stays in exactly one frame object. |
| `FramePartition.ComposeNames` | quic-go/stream_framer.go:129-163 | A queued frame object stays queued or is in the packet, and so is every new object. |
| `SentFrames.EffectAnswers` | quic-go/ackhandler/sent_packet_handler.go:188-273 | Acknowledgements, losses and timers leave every byte of a tracked or queued packet in such a packet, or in an acknowledged one. |
| `StreamDelivery.EmitKeeps` | quic-go/packet_packer.go:253-263 | Filling a packet that does not hold its last frame twice, whatever is queued and in whatever order streams are visited, disturbs nothing in play. |
| `StreamDelivery.EmitCryptoKeeps` | quic-go/stream_framer.go:115-127 | The same for the separate packets of the crypto stream. |
| `StreamDelivery.RequeueKeeps` | quic-go/stream_framer.go:32-34 | Any frame object sent before may be queued for retransmission, by its identity, at any time and any number of times; every queued object carries its content. |
| `StreamDelivery.DeliverKeeps` | quic-go/session.go:514-530 | Any packet sent before may arrive, any number of times, in any order: sorters stay valid, and the gaps stay exactly the bytes in no frame taken. |
| `StreamDelivery.AddKeeps` | quic-go/stream.go:292-307 | One frame that arrives keeps the reader in order; an empty FIN stands at the end, where no frame still to be read starts. |
| `StreamDelivery.ReadKeeps` | quic-go/stream.go:91-182 | A read extends what was delivered by the next bytes of the content, and never reports a bad position. |
| `PacketUnpacker.ComposedReadBack` | quic-go/packet_packer.go:253-263 | Whatever is queued, split and made anew: the bytes of the STREAM frames are read back as exactly the frames composed, if and only if no earlier entry of the packet is the same object as the last one. |
| `PacketUnpacker.ReadBackExactly` | quic-go/packet_unpacker.go:43-119 | Frames are read back from their bytes as they are, if and only if every frame but the last has a length field. |
| `PacketUnpacker.UnpackFewer` | quic-go/packet_unpacker.go:43-60 | Otherwise fewer frames come out, or an error. |
| `PacketUnpacker.SwallowsRest` | quic-go/internal/wire/stream_frame.go:28-87 | What follows a frame without a length field is read as its data. |
| `PacketUnpacker.Unpack` | quic-go/packet_unpacker.go:36-125 | The loop over the bytes returns the frames of the specification, with padding and the errors for empty packets, malformed frames and unencrypted data. |
| `StreamFrameSorter.PushRefines` | quic-go/stream_frame_sorter.go:32-144 | A push keeps the gaps sorted, disjoint and non-adjacent and the queue chained from gap to gap, and the gaps become exactly the bytes that were missing and are not in the frame; only an empty FIN frame on top of a frame still to be read is excluded. |
| `StreamFrameSorter.PushDuplicate` | quic-go/stream_frame_sorter.go:41-64 | A frame with data is refused as a duplicate if and only if every byte of it was received before, and then nothing changes. |
| `StreamFrameSorter.FinKeepsChain` | quic-go/stream_frame_sorter.go:33-39 | An empty FIN frame keeps the queue readable if and only if it does not fall on the offset of a frame that is still to be read; the gaps never change. |
| `StreamFrameSorter.FinReplacesFrame` | quic-go/stream_frame_sorter.go:33-39 | A concrete run in which an empty FIN frame replaces a byte that has arrived, so that no pop returns it. |
| `StreamFrameSorter.ChainWithin` | quic-go/stream_frame_sorter.go:33-39 | A frame still to be read starts within the content, so that an honest FIN, which stands at the end of the content, never replaces one. |
| `StreamFrameSorter.LargestOffsetRefused` | quic-go/stream_frame_sorter.go:78-94 | A frame with data that reaches the largest offset is always refused. |
| `StreamFrameSorter.PushCarries` | quic-go/stream_frame_sorter.go:41-144 | If the frames pushed carry the sender's bytes, every queued frame, trimmed or not, carries the bytes at its offset. |
| `StreamFrameSorter.FinStaysAtEnd` | quic-go/stream_frame_sorter.go:96-102 | A FIN stays at the end of the stream if and only if the last byte of its frame was still missing; trimming the tail keeps the bit otherwise. |
| `StreamFrameSorter.FinsStay` | quic-go/stream_frame_sorter.go:96-102 | Whatever frames are pushed otherwise, all FINs stay at the end of the stream. |
| `StreamFrameSorter.EarlyEndOfStream` | quic-go/stream_frame_sorter.go:96-102 | A concrete run in which a correct retransmission makes the receiver see the end of the stream too early. |
| `StreamFrameSorter.PopRefines` | quic-go/stream_frame_sorter.go:146-153 | A pop takes the frame at the read position, advances by its length and keeps the sorter valid; nothing is at the read position exactly when it is the first missing byte. |
| `StreamFrameSorter.DrainReachesFirstMissing` | quic-go/stream_frame_sorter.go:146-161 | Popping until nothing is left stops exactly at the first missing byte and returns exactly the content up to it. |
| `StreamFrameSorter.RunRefines` | quic-go/stream_frame_sorter.go:41-153 | After any run of pushes and pops the missing bytes are exactly those covered by no frame pushed. |
| `StreamFrameSorter.Trim` | quic-go/stream_frame_sorter.go:70-102 | Cutting a frame at the front and then at the end leaves exactly the part between the two offsets. |
| `StreamFrameSorter.Sorter.FindGap` | quic-go/stream_frame_sorter.go:54-68 | The walk to the first gap the frame reaches, or the finding that the frame is a duplicate. |
| `StreamFrameSorter.Sorter.FindEndGap` | quic-go/stream_frame_sorter.go:78-94 | The walk to the last gap the frame reaches, which drops the queued frames at the ends of the gaps in between. |
| `StreamFrameSorter.Sorter.ShrinkGaps` | quic-go/stream_frame_sorter.go:104-130 | The gap list once the stored frame is cut out, in all cases of shrinking, splitting and removing. |
| `StreamFrameSorter.Sorter.StoreBetween` | quic-go/stream_frame_sorter.go:96-143 | The frame trimmed to the gaps at its ends, the gaps shrunk, and the frame queued unless there are too many gaps. |
| `StreamFrameSorter.Sorter.StoreFrame` | quic-go/stream_frame_sorter.go:51-143 | The two scanning loops and the four cases of gap surgery compute the store of the specification, including its errors. |
| `StreamFrameSorter.Sorter.Push` | quic-go/stream_frame_sorter.go:32-144 | The new gap list, queue and result are those of the specification, in every branch. |
| `StreamFrameSorter.Sorter.Pop` | quic-go/stream_frame_sorter.go:146-153 | The new state and the frame returned are those of the specification. |
| `StreamFrameSorter.Sorter.Head` | quic-go/stream_frame_sorter.go:155-161 | The frame that the next pop would return. |
| `SendStream.WriteKeeps` | quic-go/stream.go:184-232 | Accepted data follow everything accepted before, so that no byte is lost, if and only if nothing was pending; otherwise they replace what was pending. |
| `SendStream.WriteLosesByte` | quic-go/stream.go:184-232 | A concrete write after a missed deadline that loses an accepted byte. |
| `SendStream.GetDataKeeps` | quic-go/stream.go:244-263 | Data are handed out in order, without a gap, at the write offset, no more than asked for, and never after the FIN. |
| `SendStream.FinIsLast` | quic-go/stream.go:280-289 | The FIN is due only when everything accepted was handed out; afterwards nothing is accepted and nothing is handed out. |
| `SendStream.Stream.Offer` | quic-go/stream.go:184-200 | The state after a write, and whether it was refused. |
| `SendStream.Stream.TakeData` | quic-go/stream.go:244-263 | The state after handing out data, and the data. |
| `SendStream.Stream.MarkFinSent` | quic-go/stream.go:287-289 | The state once the FIN was sent. |
| `ReceiveStream.ReadIsNext` | quic-go/stream.go:102-182 | A read returns the bytes of the content between the old and the new read offset, at most as many as asked for, across any number of frames. |
| `ReceiveStream.AddIsGood` | quic-go/stream.go:292-307 | A frame that is not refused leaves every queued frame carrying its content. |
| `ReceiveStream.HeadStays` | quic-go/stream_frame_sorter.go:41-144 | Arriving frames never replace or remove a frame with data at the read position, unless an empty FIN frame falls on it. |
| `ReceiveStream.AddKeepsPosition` | quic-go/stream.go:292-307 | The position within a partly read frame stays inside that frame when frames arrive. |
| `ReceiveStream.ReadKeepsPosition` | quic-go/stream.go:149-181 | A read never finds its position outside the head frame: the branch for that error is unreachable. |
| `ReceiveStream.ReadReaches` | quic-go/stream.go:102-182 | A read that is long enough and does not end the stream reaches the first byte that has not arrived. |
| `ReceiveStream.Stream.AddStreamFrame` | quic-go/stream.go:299-307 | The new state, and whether the frame was accepted or a duplicate. |
| `ReceiveStream.Stream.TakeChunk` | quic-go/stream.go:126-178 | What one turn of the read loop does to the stream. |
| `ReceiveStream.Stream.ReadBytes` | quic-go/stream.go:91-182 | The loop over frames computes the specified read: data, new state and reason for stopping. |
| `StreamFramer.PopOk` | quic-go/stream_framer.go:36-39 | Every frame object, new or retransmitted, whole or cut in place, queued or in a packet, carries its stream's bytes, with a FIN only at the end; contents only grow, and not after the FIN. |
| `StreamFramer.PopFits` | quic-go/stream_framer.go:36-39 | All frames of a packet, each with a length field, fit into the space given, if and only if no frame that stands in the packet already grows by being cut. |
| `StreamFramer.PopDistinct` | quic-go/stream_framer.go:36-39 | If the queue holds every frame object once, so do the packet and the rest of the queue, and no frame in the packet is cut. |
| `StreamFramer.PopWithin` | quic-go/stream_framer.go:165-238 | Filling a packet keeps the bytes sent within the peer's stream and connection windows. |
| `StreamFramer.PeerWindowWithin` | quic-go/internal/flowcontrol/flow_control_manager.go:263-279 | A WINDOW_UPDATE keeps the bytes sent within the windows, if and only if it is not a first one that lies below what was sent. |
| `StreamFramer.NegotiatedWithin` | quic-go/internal/handshake/connection_parameters_manager.go:127-144 | Newly agreed windows keep the bytes sent within the windows, if and only if no controller without a WINDOW_UPDATE has sent more than they allow. |
| `StreamFramer.RetransmissionsFit` | quic-go/stream_framer.go:129-163 | The retransmitted frames use exactly the space counted, never more than there is, if and only if no frame taken is cut at offset zero by one byte. |
| `StreamFramer.RetransmissionsComplete` | quic-go/stream_framer.go:129-163 | What is taken and what is left add up to what was queued, without loss or repetition, if and only if the frame that is cut stands neither in the packet nor once more in the queue. |
| `StreamFramer.RetransmissionsOk` | quic-go/stream_framer.go:129-163 | Frame objects taken and left carry their content and keep the FIN at the end. |
| `StreamFramer.SplitOk` | quic-go/stream_framer.go:241-258 | Both parts of a split frame carry their share, and the FIN stays with the second. |
| `StreamFramer.VisitOk` | quic-go/stream_framer.go:169-233 | A new frame carries the next bytes of its stream, and its FIN comes after the last of them. |
| `StreamFramer.VisitFits` | quic-go/stream_framer.go:177-231 | A new frame with its header fits into the space left. |
| `StreamFramer.VisitWithin` | quic-go/stream_framer.go:183-213 | New data exceed neither the stream's nor the connection's window. |
| `StreamFramer.WalkOk` | quic-go/stream_framer.go:165-238 | The same for all frames made on one walk over the streams, in any order. |
| `StreamFramer.MaybeSplitOffFrame` | quic-go/stream_framer.go:241-258 | The frame is cut in place and its beginning becomes a new frame, or nothing happens if it is short enough. |
| `StreamFramer.TakeFrames` | quic-go/stream_framer.go:129-156 | The loop takes frames from the queue as long as they fit as a whole. |
| `StreamFramer.MaybePopFramesForRetransmission` | quic-go/stream_framer.go:129-163 | The loop returns the frames, the remaining queue, the changed frame objects and the space used of the specification. |
| `StreamFramer.OfferStream` | quic-go/stream_framer.go:169-233 | What one call of the callback does: frame, stream, flow control, BLOCKED queue, and whether to go on. |
| `StreamFramer.MaybePopNormalFrames` | quic-go/stream_framer.go:165-238 | The walk returns the frames and the new state of streams, flow control and BLOCKED queue of the specification. |
| `StreamFramer.Framer.PopFrames` | quic-go/stream_framer.go:36-39 | The new state of the framer and the frames are those of the specification. |
| `StreamFramer.Framer.AddFrameForRetransmission` | quic-go/stream_framer.go:32-34 | The frame object is appended to the queue and nothing else changes. |
| `StreamFramer.Framer.PopBlockedFrame` | quic-go/stream_framer.go:41-48 | The first queued entry is taken, if there is one. |
| `StreamFramer.Framer.ClearLength` | quic-go/packet_packer.go:261-263 | The length field of the last frame object is cleared, and nothing else changes. |
| `StreamTurns.EveryStreamIsAsked` | quic-go/stream_framer.go:165-238 | Whatever streams have to send and however much space there is: among as many packets as streams are open, each with space left behind the crypto and the header stream, every other stream is asked for data. |
| `StreamTurns.AskedIsIteration` | quic-go/streams_map.go:240-273 | The streams that the framer asks for one packet are exactly those of one round robin iteration. |
| `StreamFrameCodec.WriteParse` | quic-go/internal/wire/stream_frame.go:28-151 | A frame that is written is read back, followed by anything, or by nothing if it has no length field. |
| `StreamFrameCodec.LengthWritten` | quic-go/internal/wire/stream_frame.go:191-197 | The bytes written are the header length computed beforehand and the data. |
| `StreamFrameCodec.ParseParts` | quic-go/internal/wire/stream_frame.go:79-84 | An accepted frame stays below the largest offset and is not empty without a FIN. |
| `PacketPacker.PayloadFits` | quic-go/packet_packer.go:207-275 | A composed payload does not exceed the size it was composed for once it is written, across acknowledgements, control frames, splitting and the two extra bytes, if and only if it does not cut a frame at offset zero by one byte that it holds already. |
| `PacketPacker.TooLargeExactly` | quic-go/packet_packer.go:317-338 | Hence the check for a packet that is too large fails after composing in that one case only. |
| `PacketPacker.NeverTooLarge` | quic-go/packet_packer.go:317-338 | If every frame object is queued only once, that case does not occur. |
| `PacketPacker.CutTooLarge` | quic-go/stream_framer.go:129-163 | Whenever a frame that stands in the packet already grows by being cut, the frames composed, and their bytes, are longer than the space they were composed for. |
| `PacketPacker.QueuedTwiceGrows` | quic-go/stream_framer.go:129-163 | For every frame of two or more bytes at offset zero: queued twice with one byte of space for the second entry, it makes the frames, and the bytes written, longer than the space. |
| `PacketPacker.TakenFits` | quic-go/packet_packer.go:233-245 | The control frames taken are the ones counted. |
| `PacketPacker.ClearSavesTwo` | quic-go/packet_packer.go:255-263 | Clearing the length field of the last frame object gives back the two extra bytes, and more only if the object stands in the packet several times. |
| `PacketPacker.PopControlFrames` | quic-go/packet_packer.go:233-245 | The loop from the end of the queue takes what the specification takes. |
| `PacketPacker.Packer.ComposeNextPacket` | quic-go/packet_packer.go:207-275 | Payload, new state or error are those of the specification. |
| `PacketPacker.Packer.ComposeStreamFrames` | quic-go/packet_packer.go:258-263 | The framer's new state and the frames, the last one changed in place. |
| `PacketPacker.Packer.ComposeControlFrames` | quic-go/packet_packer.go:215-249 | The control frames in the packet and those left, or the error. |
| `PacketPacker.Packer.AlwaysFirst` | quic-go/packet_packer.go:215-231 | STOP_WAITING and ACK come first with their lengths. |
| `PacketPacker.Packer.MoveBlockedFrames` | quic-go/packet_packer.go:270-272 | All queued BLOCKED frames are appended to the control frames in order. |
| `PacketPacker.Packer.QueueControlFrame` | quic-go/packet_packer.go:277-286 | Which queue a frame goes to. |
| `ControlFrames.LengthWritten` | quic-go/internal/wire/paths_frame.go:26-91 | A control frame is written with exactly the length computed for it, if and only if it is not a PATHS frame for more than 84 paths. |
| `AckProtocol.AckSafety` | quic-go/ackhandler/sent_packet_handler.go:188-273 | In every interleaving of sending, delivery, STOP_WAITING, ACK and CLOSE_PATH emission, lossy or repeated delivery and timers: a packet is treated as acknowledged only if the receiver's history held its number, and only numbers that were sent are held. |
| `AckProtocol.AckNeverRejected` | quic-go/ackhandler/sent_packet_handler.go:188-218 | In every reachable state an ACK emitted at any time before parses and is taken, or ignored as old: never refused as being for an unsent or skipped packet. |
| `AckProtocol.CloseNeverRejected` | quic-go/ackhandler/sent_packet_handler.go:236-258 | The same for CLOSE_PATH. |
| `AckProtocol.AckAlwaysBuilds` | quic-go/ackhandler/received_packet_handler.go:125-148 | In every reachable state an ACK that is due can be built: the list of ranges is not empty and the frame covers exactly the list. |
| `AckProtocol.StopWaitingBelowNext` | quic-go/ackhandler/stop_waiting_manager.go:16-49 | In every reachable state, each STOP_WAITING handed out lies between 1 and one past the last packet sent. |
| `AckProtocol.WrittenAckHonest` | quic-go/internal/wire/ack_frame.go:203-347 | An ACK that is written, cut to what fits, and parsed again acknowledges nothing the receiver has not held. |
| `AckProtocol.WrittenCloseHonest` | quic-go/internal/wire/close_path_frame.go:19-284 | The same for CLOSE_PATH. |
| `AckProtocol.ReceiverKeeps` | quic-go/session.go:527-530 | A packet with a STOP_WAITING frame leaves the receiver valid, holding only numbers it has held. |
| `AckProtocol.ApplyKeeps` | quic-go/ackhandler/sent_packet_handler.go:137-603 | Every step of the protocol keeps the invariant. |
| `ReceivedPacketHistory.InsertContains` | quic-go/ackhandler/received_packet_history.go:28-75 | Recording a packet number is set insertion. |
| `ReceivedPacketHistory.InsertDescending` | quic-go/ackhandler/received_packet_history.go:28-75 | The intervals stay sorted, disjoint and maximal. |
| `ReceivedPacketHistory.DeleteContains` | quic-go/ackhandler/received_packet_history.go:78-93 | Deleting up to a number removes exactly the numbers up to it. |
| `ReceivedPacketHistory.DeleteDescending` | quic-go/ackhandler/received_packet_history.go:78-93 | The intervals stay sorted, disjoint and maximal. |
| `ReceivedPacketHistory.Canonical` | quic-go/ackhandler/received_packet_history.go:96-108 | The list of intervals is determined by the set of numbers alone. |
| `ReceivedPacketHistory.InsertWalking` | quic-go/ackhandler/received_packet_history.go:33-74 | The walk from the highest interval down, with extension and merging, computes the insertion. |
| `ReceivedPacketHistory.DeleteWalking` | quic-go/ackhandler/received_packet_history.go:81-92 | The walk from the lowest interval up computes the deletion. |
| `ReceivedPacketHistory.History.ReceivedPacket` | quic-go/ackhandler/received_packet_history.go:28-75 | The new list, or the error for too many ranges. |
| `ReceivedPacketHistory.History.DeleteUpTo` | quic-go/ackhandler/received_packet_history.go:78-93 | The new list and lower bound. |
| `ReceivedPacketHandler.ReceivedKeeps` | quic-go/ackhandler/received_packet_handler.go:46-68 | An accepted packet above the limit adds exactly its number, and the highest range ends at the largest number observed. |
| `ReceivedPacketHandler.LimitKeeps` | quic-go/ackhandler/received_packet_handler.go:72-75 | A limit below some received packet removes exactly the numbers up to it and keeps the list nonempty. |
| `ReceivedPacketHandler.AckIsExact` | quic-go/ackhandler/received_packet_handler.go:125-148 | When an ACK is due the list is not empty, its largest number ends the top range, and the frame acknowledges exactly the numbers held. |
| `ReceivedPacketHandler.CurrentAckIsExact` | quic-go/ackhandler/received_packet_handler.go:150-162 | The same for the acknowledgement inside CLOSE_PATH. |
| `ReceivedPacketHandler.Handler.ReceivedPacket` | quic-go/ackhandler/received_packet_handler.go:46-68 | State and outcome in every branch. |
| `ReceivedPacketHandler.Handler.MaybeQueueAck` | quic-go/ackhandler/received_packet_handler.go:77-123 | When an ACK is queued, delayed or left alone. |
| `ReceivedPacketHandler.Handler.SetLimit` | quic-go/ackhandler/received_packet_handler.go:72-75 | The new limit and list. |
| `ReceivedPacketHandler.Handler.GetAck` | quic-go/ackhandler/received_packet_handler.go:125-148 | The frame, if due, and the reset counters. |
| `AckFrames.WriteParse` | quic-go/internal/wire/ack_frame.go:38-347 | For every well-formed frame that can be written, parsing returns the frame with exactly the ranges that fit, gaps over 255 included, and the delay rounded down. |
| `AckFrames.WriteSucceeds` | quic-go/internal/wire/ack_frame.go:203-347 | Writing succeeds if and only if the gap below the first range needs fewer than 255 blocks. |
| `AckFrames.LengthWritten` | quic-go/internal/wire/ack_frame.go:350-369 | The length computed beforehand is the number of bytes written. |
| `AckFrames.ParseSound` | quic-go/internal/wire/ack_frame.go:106-200 | Whatever bytes arrive, an accepted frame has descending, nonempty ranges within its bounds: nothing has wrapped around. |
| `AckFrames.AcksPacketByRanges` | quic-go/internal/wire/ack_frame.go:472-488 | The bounds check is only an optimisation: the ranges alone decide. |
| `AckFrames.ReceivedAcks` | quic-go/internal/wire/ack_frame.go:416-442 | Truncation only forgets: what arrives acknowledges its largest number and nothing the receiver left out. |
| `AckFrames.WriteFrame` | quic-go/internal/wire/ack_frame.go:203-347 | The loops over ranges and blocks write the bytes of the specification or return its errors. |
| `AckFrames.ParseFrame` | quic-go/internal/wire/ack_frame.go:38-200 | The reader loop returns what the specification parses. |
| `AckFrames.ParseRanges` | quic-go/internal/wire/ack_frame.go:106-165 | The same for the part with missing ranges. |
| `AckRanges.AddAllBlocks` | quic-go/internal/wire/ack_frame.go:113-152 | Reading the blocks of descending ranges, long gaps split, rebuilds exactly the ranges. |
| `AckRanges.ReadPutBlocks` | quic-go/internal/wire/ack_frame.go:115-146 | Reading from the bytes of blocks is adding the blocks. |
| `AckRanges.ReadFromOk` | quic-go/internal/wire/ack_frame.go:113-165 | Ranges read from arbitrary bytes stay in order or are flagged. |
| `AckRanges.CountBlocks` | quic-go/internal/wire/ack_frame.go:416-442 | The loop counts the ranges and blocks that fit into 255 blocks. |
| `AckRanges.WriteRange` | quic-go/internal/wire/ack_frame.go:285-333 | The loop writes one range with its gap, spread over as many blocks as needed. |
| `AckRanges.WriteRanges` | quic-go/internal/wire/ack_frame.go:280-339 | The loop writes all ranges that fit. |
| `AckRanges.ReadBlocks` | quic-go/internal/wire/ack_frame.go:113-152 | The loop reads the blocks of a frame. |
| `AckRanges.CheckRanges` | quic-go/internal/wire/ack_frame.go:390-411 | The validation loops accept exactly the ranges that are in order. |
| `ClosePathFrames.WriteParse` | quic-go/internal/wire/close_path_frame.go:19-284 | The round trip of the CLOSE_PATH frame. |
| `ClosePathFrames.ParseSound` | quic-go/internal/wire/close_path_frame.go:157-284 | An accepted frame is sound. |
| `ClosePathFrames.LengthWritten` | quic-go/internal/wire/close_path_frame.go:286-300 | The length computed beforehand is the number of bytes written. |
| `ClosePathFrames.WriteFrame` | quic-go/internal/wire/close_path_frame.go:19-155 | The method writes the bytes of the specification. |
| `ClosePathFrames.ParseFrame` | quic-go/internal/wire/close_path_frame.go:157-284 | The method returns what the specification parses. |
| `ByteOrder.GetPut` | quic-go/internal/utils/byteorder_little_endian.go:17-149 | Reading back a written integer gives the value if it fits, in both byte orders. |
| `ByteOrder.ReadUintN` | quic-go/internal/utils/byteorder_little_endian.go:17-27 | The loop over bytes computes the value, in both byte orders. |
| `SentPackets.DetermineNewlyAcked` | quic-go/ackhandler/sent_packet_handler.go:275-349 | The single pass over tracked packets and ranges returns exactly the tracked packets that the simple test acknowledges; the error for a range that does not fit is never returned. Both ACK and CLOSE_PATH use it. |
| `SentPackets.Decide` | quic-go/ackhandler/sent_packet_handler.go:291-304 | Advancing to the range that decides about a packet gives the verdict of the simple test. |
| `SentPackets.UnackedStay` | quic-go/ackhandler/sent_packet_handler.go:505-511 | Exactly the packets that a frame does not acknowledge stay tracked. |
| `SentPackets.LeaveSplits` | quic-go/ackhandler/sent_packet_handler.go:505-599 | Packets that leave and packets that stay add up to the list, by occurrence and by bytes. |
| `SentPackets.LeaveFirst` | quic-go/ackhandler/sent_packet_handler.go:505-511 | Removing elements one at a time is removing them all. |
| `SentPacketHandler.AllowedIsAccepted` | quic-go/ackhandler/sent_packet_handler.go:535-554 | While sending is allowed, a packet is refused if and only if its number does not increase. |
| `SentPacketHandler.Conservation` | quic-go/ackhandler/sent_packet_handler.go:137-603 | Over every run, whatever frames arrive: bytes in flight are the lengths tracked, bytes sent are bytes acknowledged plus in flight plus moved to retransmission, the history is strictly increasing, and every packet ever tracked is in exactly one of these places, once. |
| `SentPacketHandler.StopWaitingInRange` | quic-go/ackhandler/sent_packet_handler.go:531-533 | Over every run, a STOP_WAITING names a number from 1 to one past the last packet sent. |
| `SentPacketHandler.AckDeparts` | quic-go/ackhandler/sent_packet_handler.go:188-234 | What an ACK makes leave the history, and that all counters follow. |
| `SentPacketHandler.ClosePathDeparts` | quic-go/ackhandler/sent_packet_handler.go:236-273 | The same for CLOSE_PATH. |
| `SentPacketHandler.AlarmDeparts` | quic-go/ackhandler/sent_packet_handler.go:451-483 | The same for time loss, tail loss probes and timeouts. |
| `SentPacketHandler.LostAmong` | quic-go/ackhandler/sent_packet_handler.go:395-427 | The packets declared lost are exactly the overdue ones not above the largest acknowledged number. |
| `SentPacketHandler.UpToAmong` | quic-go/ackhandler/sent_packet_handler.go:429-449 | When the path is closed, exactly the packets not above the largest acknowledged number are lost. |
| `SentPacketHandler.AddSkippedKeepsLatest` | quic-go/ackhandler/sent_packet_handler.go:146-152 | The skipped numbers remembered are the ten latest, in order. |
| `SentPacketHandler.CollectKeepsAbove` | quic-go/ackhandler/sent_packet_handler.go:646-655 | Garbage collection keeps exactly the skipped numbers above the in-order limit. |
| `SentPacketHandler.TrackSkipped` | quic-go/ackhandler/sent_packet_handler.go:146-152 | The loop computes the specified list. |
| `SentPacketHandler.StripNonRetransmittable` | quic-go/ackhandler/retransmittable.go:6-26 | The frames that are kept, in order. |
| `SentPacketHandler.FindLost` | quic-go/ackhandler/sent_packet_handler.go:402-419 | The loop finds the lost packets and the time of the next loss. |
| `SentPacketHandler.FindInflight` | quic-go/ackhandler/sent_packet_handler.go:430-440 | The loop finds the packets in flight up to the largest acknowledged number. |
| `SentPacketHandler.AnySkippedAcked` | quic-go/ackhandler/sent_packet_handler.go:628-644 | Whether a skipped number is acknowledged. |
| `SentPacketHandler.AnyOutstanding` | quic-go/ackhandler/sent_packet_handler.go:366-373 | Whether a tracked packet holds a frame that keeps the alarm going. |
| `SentPacketHandler.GarbageCollect` | quic-go/ackhandler/sent_packet_handler.go:646-655 | The loop computes the specified list. |
| `SentPacketHandler.Handler.SentPacket` | quic-go/ackhandler/sent_packet_handler.go:137-186 | State and outcome of sending, with both errors. |
| `SentPacketHandler.Handler.ReceiveAck` | quic-go/ackhandler/sent_packet_handler.go:188-234 | State and outcome of an ACK in every branch. |
| `SentPacketHandler.Handler.MatchAck` | quic-go/ackhandler/sent_packet_handler.go:215-233 | Acknowledgement, loss detection, garbage collection and STOP_WAITING after an ACK was accepted. |
| `SentPacketHandler.Handler.ReceiveClosePath` | quic-go/ackhandler/sent_packet_handler.go:236-273 | State and outcome of a CLOSE_PATH in every branch. |
| `SentPacketHandler.Handler.OnPacketsAcked` | quic-go/ackhandler/sent_packet_handler.go:220-225 | Acknowledging one packet after the other has the effect of acknowledging all at once. |
| `SentPacketHandler.Handler.QueuePackets` | quic-go/ackhandler/sent_packet_handler.go:421-426 | Queueing one packet after the other has the effect of queueing all at once. |
| `SentPacketHandler.Handler.DetectLostPackets` | quic-go/ackhandler/sent_packet_handler.go:395-427 | The state after loss detection. |
| `SentPacketHandler.Handler.SetInflightAsLost` | quic-go/ackhandler/sent_packet_handler.go:429-449 | The state once everything in flight counts as lost. |
| `SentPacketHandler.Handler.GarbageCollectSkippedPackets` | quic-go/ackhandler/sent_packet_handler.go:646-655 | The state after garbage collection. |
| `SentPacketHandler.Handler.Alarmed` | quic-go/ackhandler/sent_packet_handler.go:451-483 | The state after the alarm in every branch. |
| `SentPacketHandler.Handler.TimeOut` | quic-go/ackhandler/sent_packet_handler.go:562-592 | The packets that timed out are queued for retransmission and counted as lost. |
| `SentPacketHandler.Handler.DequeuePacketForRetransmission` | quic-go/ackhandler/sent_packet_handler.go:513-525 | The first queued packet, and the counters. |
| `SentPacketHandler.Handler.DuplicatePacket` | quic-go/ackhandler/sent_packet_handler.go:601-603 | The packet is appended to the queue and nothing else changes. |
| `StopWaiting.FrameInRange` | quic-go/ackhandler/stop_waiting_manager.go:16-49 | Every frame names at least 1 and at most one past the last packet sent; an unforced one names more than any before. |
| `StopWaiting.Manager.GetStopWaitingFrame` | quic-go/ackhandler/stop_waiting_manager.go:16-37 | State and frame in every branch. |
| `StopWaiting.Manager.ReceivedAck` | quic-go/ackhandler/stop_waiting_manager.go:39-43 | The next frame lies above the largest acknowledged number. |
| `StopWaiting.Manager.QueuedRetransmissionForPacketNumber` | quic-go/ackhandler/stop_waiting_manager.go:45-49 | The next frame lies above the queued number. |
| `PacketNumberGenerator.NeverTwoSkips` | quic-go/packet_number_generator.go:31-56 | From any state, numbers grow by one or two, and two is never followed by two. |
| `PacketNumberGenerator.FreshNeverSkips` | quic-go/packet_number_generator.go:20-43 | A generator fresh from its constructor never skips: its k-th number is k. |
| `PacketNumberGenerator.Generator.Peek` | quic-go/packet_number_generator.go:27-29 | The number that the next call of Pop returns, whatever is drawn. |
| `PacketNumberGenerator.Generator.Pop` | quic-go/packet_number_generator.go:31-43 | The number and the new state. |
| `PacketNumberGenerator.Generator.GenerateNewSkip` | quic-go/packet_number_generator.go:45-56 | Where the next skip is placed, or nothing if the random source fails. |
| `PathSender.StopWaitingBelowNext` | quic-go/ackhandler/stop_waiting_manager.go:16-49 | Over every run of a path, a STOP_WAITING names at least 1 and at most the next number the generator returns. |
| `PathSender.NumbersAlwaysIncrease` | quic-go/ackhandler/sent_packet_handler.go:137-140 | Over every run of a path, a packet is never refused for its number. |
| `FlowControlManager.Conservation` | quic-go/internal/flowcontrol/flow_control_manager.go:64-191 | While no call has reported an error, bytes received, read and sent on the connection are the sums over contributing streams, those there and those removed. |
| `FlowControlManager.WindowsNeverMoveBack` | quic-go/internal/flowcontrol/flow_control_manager.go:43-157 | Over every run from the start in which windows start within their maximum and callers read only what has arrived: at any later time the window of the connection, and of every stream not removed meanwhile, is at least what it was. |
| `FlowControlManager.RunForward` | quic-go/internal/flowcontrol/flow_control_manager.go:94-157 | The same for the connection from any sane state; nothing is read before it arrives. |
| `FlowControlManager.StreamForward` | quic-go/internal/flowcontrol/flow_control_manager.go:94-157 | The same for a stream that is not removed. |
| `FlowControlManager.ApplyForward` | quic-go/internal/flowcontrol/flow_control_manager.go:64-191 | Each such call keeps every receive window from moving back. |
| `FlowControlManager.WindowUpdatesForward` | quic-go/internal/flowcontrol/flow_control_manager.go:138-157 | Window updates, in any order of streams, only move windows forward. |
| `FlowControlManager.ApplyKeeps` | quic-go/internal/flowcontrol/flow_control_manager.go:43-279 | Each call without an error keeps the sums. |
| `FlowControlManager.Manager.ReceivedUpTo` | quic-go/internal/flowcontrol/flow_control_manager.go:94-118 | State and outcome in every branch. |
| `FlowControlManager.Manager.Reset` | quic-go/internal/flowcontrol/flow_control_manager.go:64-89 | State and outcome in every branch. |
| `FlowControlManager.Manager.BytesReadOn` | quic-go/internal/flowcontrol/flow_control_manager.go:121-136 | State and outcome. |
| `FlowControlManager.Manager.BytesSentOn` | quic-go/internal/flowcontrol/flow_control_manager.go:176-191 | State and outcome. |
| `FlowControlManager.Manager.BytesRetransmittedOn` | quic-go/internal/flowcontrol/flow_control_manager.go:207-222 | State and outcome. |
| `FlowControlManager.Manager.UpdateWindowOfPeer` | quic-go/internal/flowcontrol/flow_control_manager.go:263-279 | State and outcome, for a stream and for the connection. |
| `FlowControlManager.Manager.WindowUpdates` | quic-go/internal/flowcontrol/flow_control_manager.go:138-157 | The new windows and the updates to send. |
| `FlowControlManager.Manager.UpdateStreamWindows` | quic-go/internal/flowcontrol/flow_control_manager.go:142-150 | The loop over the map, in the order given. |
| `FlowControlManager.Manager.AddStream` | quic-go/internal/flowcontrol/flow_control_manager.go:43-52 | A new controller, unless the stream is there. |
| `FlowControlManager.Manager.DropStream` | quic-go/internal/flowcontrol/flow_control_manager.go:55-59 | The stream is removed. |
| `FlowController.WindowMovesForward` | quic-go/internal/flowcontrol/flow_controller.go:150-196 | An update does not move the window back if and only if it is not made, the increment is not doubled or within its maximum, or the maximum still reaches beyond the old window. |
| `FlowController.WindowGrows` | quic-go/internal/flowcontrol/flow_controller.go:150-169 | Within the maximum every update gains at least half an increment and stays within the maximum. |
| `FlowController.WindowCanShrink` | quic-go/internal/flowcontrol/flow_controller.go:194-196 | A controller fresh from its constructor whose window, after receiving and reading, shrinks below what has been received. |
| `FlowController.WindowOfPeerGrows` | quic-go/internal/flowcontrol/flow_controller.go:66-100 | The window in force does not shrink on a WINDOW_UPDATE, if and only if it is not the first one and below the window agreed on. |
| `FlowController.UpdateStaysWithin` | quic-go/internal/flowcontrol/flow_controller.go:66-109 | The bytes sent stay within the window on a WINDOW_UPDATE, if and only if it is not the first one and below what was sent. |
| `FlowController.FirstUpdateLowers` | quic-go/internal/flowcontrol/flow_controller.go:94-100 | A concrete controller whose first WINDOW_UPDATE lies below what was sent. |
| `FlowController.WithinSendWindow` | quic-go/internal/flowcontrol/flow_controller.go:102-109 | Sending is allowed up to the window size if and only if all bytes sent stay within the window. |
| `FlowController.EnsureCommutes` | quic-go/internal/flowcontrol/flow_controller.go:211-216 | The order in which streams ask for a larger connection window does not matter. |
| `FlowController.MaxRemoteRTT` | quic-go/internal/flowcontrol/flow_controller.go:184-187 | The loop computes the maximum. |
| `FlowController.FlowControl.UpdateWindowOfPeer` | quic-go/internal/flowcontrol/flow_controller.go:94-100 | The field takes the offset if that is larger, and whether it did; see `WindowOfPeerGrows` for the window in force. |
| `FlowController.FlowControl.AddBytesSent` | quic-go/internal/flowcontrol/flow_controller.go:76-78 | The bytes sent. |
| `FlowController.FlowControl.AddBytesRetrans` | quic-go/internal/flowcontrol/flow_controller.go:84-86 | The bytes retransmitted. |
| `FlowController.FlowControl.IncrementHighestReceived` | quic-go/internal/flowcontrol/flow_controller.go:134-136 | The highest offset of the connection. |
| `FlowController.FlowControl.UpdateHighestReceived` | quic-go/internal/flowcontrol/flow_controller.go:120-130 | The new highest offset and the increment, or nothing for a smaller offset. |
| `FlowController.FlowControl.Read` | quic-go/internal/flowcontrol/flow_controller.go:138-145 | The bytes read, and the start of the clock at the first. |
| `FlowController.FlowControl.UpdateWindow` | quic-go/internal/flowcontrol/flow_controller.go:150-169 | The window, the increment and what is returned in both branches, on unsigned numbers. |
| `FlowController.FlowControl.MaybeAdjustWindowIncrement` | quic-go/internal/flowcontrol/flow_controller.go:172-206 | When and how far the increment is raised. |
| `FlowController.FlowControl.EnsureMinimumWindowIncrement` | quic-go/internal/flowcontrol/flow_controller.go:211-216 | The increment raised up to its maximum. |
| `StreamsMap.StreamIdentity` | quic-go/streams_map.go:69-322 | Over every run and from both sides: no stream is created twice, the list of open streams enumerates exactly the open streams without duplicates, and the two counters are the numbers of open odd and even streams. |
| `StreamsMap.ClosedStaysClosed` | quic-go/streams_map.go:86-107 | Over every run, a stream that was closed is never opened again by asking for it. |
| `StreamsMap.EveryStreamHasItsTurn` | quic-go/streams_map.go:240-273 | In any n consecutive iterations over n unchanged streams every ordinary stream is visited, however early the callback stops on ordinary streams. |
| `StreamsMap.NeverStarves` | quic-go/streams_map.go:257-271 | A stream is visited within as many iterations as it lies steps behind the index. |
| `StreamsMap.GetOrOpenKeeps` | quic-go/streams_map.go:69-125 | Asking for a stream creates only streams that never existed, and the stream exists afterwards unless an error or a closed stream is reported. |
| `StreamsMap.OpenKeeps` | quic-go/streams_map.go:150-166 | A stream opened from this side never existed before. |
| `StreamsMap.RemoveKeeps` | quic-go/streams_map.go:295-322 | Removal keeps list and counters exact; no counter falls below zero. |
| `StreamsMap.VisitOrdinary` | quic-go/streams_map.go:257-271 | The ring walk visits the specified streams and leaves the specified index. |
| `StreamsMap.VisitPriority` | quic-go/streams_map.go:247-255 | Crypto and header stream come first, and may end the iteration. |
| `StreamsMap.CutOpen` | quic-go/streams_map.go:307-317 | The list without the stream, and the adjusted index. |
| `StreamsMap.Streams.GetOrOpenStream` | quic-go/streams_map.go:69-125 | State and outcome in every branch. |
| `StreamsMap.Streams.OpenStreamsUpTo` | quic-go/streams_map.go:116-121 | The loop opens every stream up to the one asked for, or stops at an error. |
| `StreamsMap.Streams.OpenRemoteStream` | quic-go/streams_map.go:127-148 | State and outcome. |
| `StreamsMap.Streams.OpenStream` | quic-go/streams_map.go:150-177 | State and outcome. |
| `StreamsMap.Streams.RemoveStream` | quic-go/streams_map.go:295-322 | State and outcome. |
| `StreamsMap.Streams.RoundRobinIterate` | quic-go/streams_map.go:240-273 | The streams visited in order and the next index. |
| `RingListRun.RunAndWalk` | quic-go/internal/utils/byteinterval_linkedlist.go:29-214 | Any sequence of insertions, removals, moves, copies of lists and clearings, at any positions of two lists: both walks then give the values that the sequence operations give, one in order and one in reverse. |
| `RingListRun.PerformAll` | quic-go/internal/utils/byteinterval_linkedlist.go:52-214 | From any two lists that share no element: every sequence of operations keeps both rings well-formed and apart, and their values are the fold of the sequence operations. |
| `RingListRun.Perform` | quic-go/internal/utils/byteinterval_linkedlist.go:52-214 | Each operation, at given positions, on the list's own or the other list's elements, has the effect of its sequence operation. |
| `RingListRun.MovesPermute` | quic-go/internal/utils/byteinterval_linkedlist.go:162-196 | Moving elements changes their order only. |
| `RingListRun.MovedByPosition` | quic-go/internal/utils/byteinterval_linkedlist.go:182-196 | Moving by elements is moving by positions. |
| `RingListRun.WalkBoth` | quic-go/internal/utils/byteinterval_linkedlist.go:29-42 | The walk from the back gives the values of the walk from the front in reverse. |
| `RingList.List.Insert` | quic-go/internal/utils/byteinterval_linkedlist.go:90-99 | The element stands at its position in a well-formed ring, and all others keep their order. |
| `RingList.List.Unlink` | quic-go/internal/utils/byteinterval_linkedlist.go:107-115 | The ring is well-formed without the element, which points nowhere. |
| `RingList.List.Forward` | quic-go/internal/utils/byteinterval_linkedlist.go:29-34 | The walk from the front along next visits the elements in order, each once, and ends. |
| `RingList.List.Backward` | quic-go/internal/utils/byteinterval_linkedlist.go:37-42 | The walk from the back along prev visits them in reverse. |
| `RingList.List.Front` | quic-go/internal/utils/byteinterval_linkedlist.go:67-72 | The first element or nothing. |
| `RingList.List.Back` | quic-go/internal/utils/byteinterval_linkedlist.go:75-80 | The last element or nothing. |
| `RingList.Element.Next` | quic-go/internal/utils/byteinterval_linkedlist.go:29-34 | The following element of the list or nothing. |
| `RingList.Element.Prev` | quic-go/internal/utils/byteinterval_linkedlist.go:37-42 | The preceding element of the list or nothing. |
| `RingList.List.LazyInit` | quic-go/internal/utils/byteinterval_linkedlist.go:83-87 | A zero list becomes an empty ring; any other list is left alone. |
| `RingList.List.PushFront` | quic-go/internal/utils/byteinterval_linkedlist.go:129-132 | A new element comes first. |
| `RingList.List.PushBack` | quic-go/internal/utils/byteinterval_linkedlist.go:135-138 | A new element comes last. |
| `RingList.List.InsertBefore` | quic-go/internal/utils/byteinterval_linkedlist.go:142-148 | A new element stands directly before the mark, or nothing changes if the mark is not in the list; the elements are the old ones and the new one. |
| `RingList.List.InsertAfter` | quic-go/internal/utils/byteinterval_linkedlist.go:152-158 | A new element stands directly after the mark, or nothing changes. |
| `RingList.List.Remove` | quic-go/internal/utils/byteinterval_linkedlist.go:119-126 | The element is taken out if it is in the list; its value is returned, and the elements of the list are no others. |
| `RingList.List.MoveToFront` | quic-go/internal/utils/byteinterval_linkedlist.go:162-168 | The element comes first, the others keep their order. |
| `RingList.List.MoveToBack` | quic-go/internal/utils/byteinterval_linkedlist.go:172-178 | The element comes last, the others keep their order. |
| `RingList.List.MoveBefore` | quic-go/internal/utils/byteinterval_linkedlist.go:182-187 | The element stands directly before the mark, the others keep their order. |
| `RingList.List.MoveAfter` | quic-go/internal/utils/byteinterval_linkedlist.go:191-196 | The element stands directly after the mark, the others keep their order. |
| `RingList.List.PushBackList` | quic-go/internal/utils/byteinterval_linkedlist.go:200-205 | New elements with the values of the other list follow in order; a list pushed onto itself is doubled, and the loop ends. |
| `RingList.List.PushFrontList` | quic-go/internal/utils/byteinterval_linkedlist.go:209-214 | New elements with the values of the other list come first in order, also for the list itself. |
| `Float16.BestLowerApproximation` | quic-go/internal/utils/float16.go:54-86 | Decoding the code of a value gives the largest representable value not above it. |
| `Float16.RelativeError` | quic-go/internal/utils/float16.go:54-86 | Within the maximum the error is below one part in 2048. |
| `Float16.EncodeMonotone` | quic-go/internal/utils/float16.go:54-86 | Larger values never get smaller codes. |
| `Float16.DecodeEncode` | quic-go/internal/utils/float16.go:25-86 | Encoding a decoded value gives back its code. |
| `Float16.DecodeMonotone` | quic-go/internal/utils/float16.go:25-51 | Larger codes decode to larger values. |
| `Float16.NormalizeBounds` | quic-go/internal/utils/float16.go:60-82 | Normalising leaves the top bit at position 11 and a code below the maximum. |
| `Float16.EncodeFast` | quic-go/internal/utils/float16.go:54-86 | The loop of halving shifts computes the same code as shifting one bit at a time. |
| `PacketNumber.InferInvertsTruncation` | quic-go/internal/protocol/packet_number.go:4-42 | With the length the sender chooses, the receiver infers the true packet number, also in the first epoch, where the previous one wraps around. |
| `PacketNumber.InferClosest` | quic-go/internal/protocol/packet_number.go:4-28 | The inferred number has the right truncation and no number with that truncation is closer to the expected one. |
| `PacketNumber.MinLength` | quic-go/internal/protocol/packet_number.go:45-56 | The length chosen holds the whole number if six bytes can. |
| `PacketNumber.TruncateIsMod` | quic-go/internal/protocol/packet_number.go:5-6 | The mask that cuts off an epoch is the remainder. |
| `Scheduler.ChoiceIsBest` | quic-go/scheduler.go:391-457 | For every order of the map: nothing is chosen if and only if no path is eligible, else an eligible path of lowest nonzero RTT if one is probed, else one of lowest quota. |
| `Scheduler.OrderDoesNotMatter` | quic-go/scheduler.go:391-457 | Walks over the same paths in different orders choose paths of the same RTT, or of the same quota if none is probed. |
| `Scheduler.LowestRTT` | quic-go/scheduler.go:391-457 | The loop returns the specified choice and changes no quota. |
| `Scheduler.SelectPathLowLatency` | quic-go/scheduler.go:360-458 | The selector with its early returns. |
| `Scheduler.SelectWithSecondBest` | quic-go/scheduler.go:460-714 | BLEST and ECF return what the lowest RTT selector returns on the same order; their formulas are never consulted. |
| `Scheduler.BestTwo` | quic-go/scheduler.go:484-555 | The loop of both selectors keeps the same best path, and a second one only beside it. |
| `Scheduler.FindFewerPackets` | quic-go/scheduler.go:375-389 | The first path in the order with a lower quota. |
| `Olia.EpsilonsSumToZero` | quic-go/congestion/olia_sender.go:150-211 | For any windows and any choice of best paths, the epsilons of all paths sum to zero as rational numbers. |
| `Olia.CountersExact` | quic-go/congestion/olia_sender.go:160-187 | With at most 256 paths the one-byte counters are exact whenever a path gains, and no denominator is zero. |
| `Olia.GetMaxCwnd` | quic-go/congestion/olia_sender.go:124-131 | The loop computes the largest window. |
| `Olia.CountGroups` | quic-go/congestion/olia_sender.go:175-187 | The loop counts both groups modulo 256. |
| `Olia.GetEpsilon` | quic-go/congestion/olia_sender.go:150-211 | Every sender is given its epsilon among all of them, and the epsilons that the senders then hold sum to zero. |
| `Olia.GiveEpsilon` | quic-go/congestion/olia_sender.go:190-210 | One sender's epsilon in every branch, from the counts over all of them. |

## Left out

- The learning agents and their servers, the HTTP layer, the examples and the simulation scripts.
- Cryptography and the handshake: the sealer is its overhead, the public header its length.
- The learned schedulers (SAC, DQN, Q-learning), Peek, the random and the round robin path selectors.
- CUBIC, RTT smoothing, hybrid slow start, proportional rate reduction and the window growth of OLIA beyond its
  epsilons.
- Goroutines, channels, deadlines and locks: every public call is one atomic step, and a call that would wait returns
  what it has.
- Opening a stream with waiting, accepting streams, resetting and cancelling a stream, and the calls from a stream into
  flow control: streams and flow control are modelled side by side.
- RTT measurement and the congestion controller's callbacks when packets are sent, acknowledged or lost.
- The alarm times of the sent packet handler (tail loss and retransmission timeouts with backoff): an alarm may go off
  at any time.
- The float arithmetic of the loss delay and of the connection window multiplier: both are computed on integers.
- Packet numbers, offsets, byte counters and stream IDs are unbounded except where a member states a width; in the
  delivery model streams have identifiers below 2^32, and a stream that exceeds 2^64 - 1 bytes ends the connection.
- StreamDelivery.PrefixSafety: the STREAM frames of a packet stand for the packet; control frames before them and
  retransmitted handshake packets are not on the network, and the receiver's flow control does not refuse data.
- RetransmissionSafety.NothingForgottenExactly: says nothing once an error has closed the connection; a packet that
  cannot be sealed or written closes it too, and is not a step of its own.
- PacketUnpacker.Unpack: frames of other types than STREAM and padding end the reading with an error.
- AckProtocol.AckSafety: packet numbers stay below 2^48, the largest the wire format holds; an error of the receiver ends
  the session.
- StreamsMap.EveryStreamHasItsTurn: assumes that the callback goes on after the crypto and the header stream, which come
  first in every iteration.
- StreamTurns.EveryStreamIsAsked: makes the same assumption, and that no stream is opened or closed meanwhile.
- StreamsMap.Streams.OpenStreamsUpTo: does not model wrap-around of 32-bit stream IDs.
- PacketPacker.PayloadFits: the public header, connection close and handshake packets are not composed here.
- FlowControlManager.WindowsNeverMoveBack: assumes that windows start within their maximum and that callers read only
  what has arrived.
- RingList.List.Remove: an element that names the list must be in it; elements left over from a list that was cleared with
  `Init` are not covered, and the repository calls `Init` on new lists only.
- RingList.List.InsertBefore: a mark that names the list must be in it; elements left over from a list that was cleared with
  `Init` are not covered, and the repository calls `Init` on new lists only.
- RingList.List.InsertAfter: a mark that names the list must be in it; elements left over from a list that was cleared with
  `Init` are not covered, and the repository calls `Init` on new lists only.
- RingList.List.MoveToFront: an element that names the list must be in it; elements left over from a list that was cleared with
  `Init` are not covered, and the repository calls `Init` on new lists only.
- RingList.List.MoveToBack: an element that names the list must be in it; elements left over from a list that was cleared with
  `Init` are not covered, and the repository calls `Init` on new lists only.
- RingList.List.MoveBefore: an element or mark that names the list must be in it; elements left over from a list that was cleared with
  `Init` are not covered, and the repository calls `Init` on new lists only. The position of the mark is read after the element was removed.
- RingList.List.MoveAfter: an element or mark that names the list must be in it; elements left over from a list that was cleared with
  `Init` are not covered, and the repository calls `Init` on new lists only.
- Scheduler.SelectPathLowLatency: with a single path the source looks up the initial path without checking that it is
  there.
- ReceiveStream.AddKeepsPosition: a FIN that arrives on top of a frame still to be read is excluded; over whole runs with
  an honest sender it does not occur (`StreamDelivery.PositionSafety`).
- Olia.EpsilonsSumToZero: which paths are best is a given predicate, not computed from losses and RTTs.
