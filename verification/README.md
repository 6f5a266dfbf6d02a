# A TCP/UDP offload engine, modelled and proved in Dafny

The project models the TCP offload engine of `hls/TOE`, its checksum hardware in `RTL`, and the UDP and Ethernet framing pipelines,
in the configuration of `hls/TOE/toe.hpp` (TCP_NODELAY, RX_DDR_BYPASS, WINDOW_SCALE, WINDOW_BITS 18, MSS 4096, MAX_SESSIONS 64).

**Form.** An HLS function is called once per clock; each call is one step of a process. Its `static` variables are the fields of a
`class`, its streams are FIFOs of type `seq` that the methods reassign, and its tables are arrays. Each method is tied to a
specification function of the old state, or states the new one outright. The processes are then composed into systems whose steps
are the specification functions, in any order and any number: a theorem about a *run* is about every sequence of steps, including
every interleaving. FIFOs are unbounded. Tables of sessions that do not influence each other are modelled by the entry of one
session where the theorem is about one session.

**Main results, by file.**

- `SessionLocks.dfy` (over `StateTable.dfy` and `TcpFsm.dfy`): the two locks of the state table make each read-modify-write of the RX
  engine and of the application interface atomic; no deadlock and no livelock; over every run from power-up each table entry moves
  along the legal edges only, and FIN_WAIT_2 is never reached; requests are carried out in order, and a session ID is released
  exactly when a close or the RX engine's write leaves its entry closed.
- `SegmentEvents.dfy`, `FastRetransmit.dfy`: what the state machine tells the other processes, read from its outputs: whatever is
  received is acknowledged with one event, and over every run of the transmit window a fast retransmission is asked for exactly by
  the third duplicate acknowledgement in a row.
- `SessionLookup.dfy`: in every run of the five processes and the CAM each session ID is in exactly one place, an insert never
  overwrites a key, and the forward and reverse indexes are inverse to each other.
- `SessionAnswers.dfy`: each client of the lookup gets one answer for each query, in order: the ID the memory held, or a new one that
  from then on stands for the tuple, or a miss, and that only without permission to create or without a free ID.
- `TxAnnounced.dfy`: over every run each admitted write ends within the window announced with the acknowledgement that was read for it,
  and within the congestion window, and no write that fits is refused.
- `TxDelivery.dfy`: end to end, for new data and for every repeated packet that is read rightly: the peer's RX engine finds in the packet
  the sequence number of its first byte, the acknowledgement and window that were read, and the application's bytes of these positions.
- `TxWindow.dfy`, `TxFidelity.dfy`, `TxOverrun.dfy`, `Retransmit.dfy` (over `TxTables.dfy`): the send window in unbounded counters;
  through the code's own write and read commands, each byte of a retransmission is the one first sent under its sequence number if
  it was stored and not overwritten when it was read, in particular if it was not acknowledged then, and only for reads whose
  commands are cut rightly (below); one retransmission event covers exactly the unacknowledged data, up to four segments.
- `RxWindow.dfy` (over `RxTables.dfy`): in-order, exactly-once receive for any input segments; the buffer never overtakes the
  application; what fits the advertisement is accepted, and exactly when; each accepted segment has its own event that acknowledges it.
- `CircularBuffer.dfy`, `BufferWrite.dfy`, `BufferRead.dfy`: split, realigned bursts store a range of the circular buffer, for every
  range; a read returns its range for exactly the addresses and lengths that are named, by equivalences per content and over all
  contents.
- `Words.dfy`, `WireTx.dfy`, `WireRx.dfy`: one lemma on realigning by k bytes carries all header insertions and removals; the packet
  the TX engine builds is read back by the RX engine field by field and byte by byte.
- `ChecksumTree.dfy`, `TcpChecksumAxis.dfy`, `TransmittedChecksum.dfy`: the carry-save tree and the clocked unit around it compute
  the Internet checksum of RFC 1071 for every packet and every timing, and hand each one over two edges after its packet if it is
  taken; transmitted segments and IP headers verify, and exactly those checksum values do.
- `DropPipeline.dfy`, `DropWire.dfy`: three stages judge a segment and a fourth process applies their flags to the payload FIFO; over
  every run of harmless packets each payload packet is judged by its own segment's decisions, and no packet that is not harmless leaves
  all runs so. A packet is harmless if it has payload and, where it reaches the state machine, is an ACK or a FIN-ACK, or if it has none
  and fits in one word.
- `SynOptions.dfy`: the option parser refines a recursive reading of the option list, and on arbitrary bytes it ends exactly when
  that reading does.
- `Udp.dfy`, `EthernetFraming.dfy`: header insertion and removal are inverse, lengths included.
- `AckDelay.dfy`: each delayed ACK is answered exactly once and in time.

**Where the code does not do what its promise says.** The model follows the code; each case is a lemma.

- `combine_words` takes the wrong keep slice for a header length of 9 words: `WireRx.InsertExactly`.
- The byte offset of the payload has 6 bits, so a data offset above 12 words is cut wrongly; padding behind the IP packet is not cut
  off; and an empty payload behind more than one word is not dropped: `WireRx.ByteOffsetExactly`, `WireRx.PayloadExactly`.
- The read command's overflow test uses the full address, so it is right only for addresses with bit 18 clear, that is for sessions
  with an even ID: `BufferRead.BreaksExactly`, `BufferRead.OddSessionBreaks`, `BufferRead.ReadExactly`.
- A read of full words that ends exactly at the end of the buffer is followed by an empty word, in even sessions, too:
  `BufferRead.ReadExactly`, `BufferRead.ReadsRightExactly`, `TxFidelity.ReadableExactly`.
- Nothing holds a queued read and the write or the acknowledgement of its range apart: read before it is stored, or after 2^18 newer
  bytes, a retransmission carries other bytes than the packet it repeats: `TxOverrun.EarlyRead`, `TxOverrun.OverrunDiffers`, exactly
  then by `TxFidelity.ByteSent` and `TxFidelity.PlacesKnown`.
- The slow start threshold is computed in 16 bits: with 2^17 bytes or more in flight it is not max(FlightSize / 2, 2 MSS):
  `Retransmit.ThresholdExactly`.
- A write that ends exactly at the end of the buffer issues a second command of length zero: `BufferWrite.CommandsMatchExactly`.
- The receive window advertises one byte more than the acceptance test allows: `RxWindow.InsideAdvertisementPasses`,
  `RxWindow.ExactFillDropped`.
- An accepted FIN-ACK writes its acknowledgement number untested: `TxWindow.AcceptableExactly`, `TxWindow.UntestedFinAck`. It also
  passes on a window shift that was never assigned; the model lets it be any value.
- The payload of a FIN-ACK is stored without the test for free space: `SegmentEvents.PayloadStoredExactly`, `SegmentEvents.FinOverfills`.
- The window field of a SYN-ACK or of a SYN is scaled, against section 2.2 of RFC 7323, and an accepted FIN-ACK's by the unassigned shift:
  `TxAnnounced.ScaledAsMeant`. From a SYN the code keeps its own shift as the peer's, which is right exactly for 0 and 2:
  `TxAnnounced.ScaleKept`.
- Of a window scale only the low four bits are read, so 16 or 17 count as 0 or 1 (section 2.3 of RFC 7323 takes them as 14):
  `SynOptions.CappedExactly`.
- Without window scaling the advertised window wraps at 2^16: `RxWindow.WindowFieldExactly`, `RxWindow.UnscaledWindowWraps`.
- A SYN-ACK with a wrong acknowledgement closes the session and the application is not told: `SegmentEvents.OpensAreTold`.
- The reset that answers a SYN in SYN_RECEIVED does not count its payload, and the one for a closed port counts a SYN and a FIN on one
  segment as one: `SegmentEvents.ResetsRaised`, `DropPipeline.ResetsGoBack`.
- The RX engine's write releases the session ID even if the entry was closed before, so any segment but a SYN for a closed session releases
  its ID again: `SessionLocks.ReleasedWhenClosed`.
- A payload that reaches the state machine on a segment that is neither ACK nor FIN-ACK gets no flag from it:
  `DropPipeline.FlagExactly`, `DropPipeline.Misjudged`.
- A packet without payload of more than one word, such as an ACK with 40 bytes of options, sends words that no stage gives a flag for;
  from then on each payload packet is judged by another one's flags: `WireRx.PayloadSentExactly`, `DropPipeline.Strayed`.
- An unknown SYN option of length zero stops the parser for good, and nothing else does: `SynOptions.ZeroLengthStalls`,
  `SynOptions.EndsExactly`.
- The length fields of a UDP packet wrap, each at its own length: `Udp.LengthFields`.
- The checksum is assigned to a range that is one bit too wide and clears the lowest bit of the urgent pointer:
  `WireTx.Patched` models it; it does not matter because that pointer is zero (`WireRx.PatchedSegment`).

## Model

| member | source | states |
|---|---|---|
| TcpFsm.AckInWindowIsModularInterval | hls/TOE/rx_engine/rx_engine.cpp:695-696 | The ACK test with its explicit wrap-around case is SND.UNA =< SEG.ACK =< SND.NXT on the circle of sequence numbers (RFC 793 section 3.3), both directions |
| TcpFsm.EnteredStates | hls/TOE/rx_engine/rx_engine.cpp:667-975 | Exactly which segments, in which states, bring a session into ESTABLISHED, SYN_RECEIVED, LAST_ACK, TIME_WAIT, CLOSING and CLOSED; no other state is ever entered by a segment |
| TcpFsm.OnAck | hls/TOE/rx_engine/rx_engine.cpp:667-783 | The ACK branch writes to each of its output streams what the stream's own specification says, drop flag, notification, event and state write included; what that means is SegmentEvents |
| SegmentEvents.ReceivedIsAcknowledged | hls/TOE/rx_engine/rx_engine.cpp:730-739 | Payload, stored or refused, and every FIN raise exactly one event: an ACK, or the own FIN for the FIN that ends an established session |
| SegmentEvents.AcksAreNotAcknowledged | hls/TOE/rx_engine/rx_engine.cpp:730-739 | An acknowledgement without payload raises nothing, or the retransmission of the third duplicate |
| SegmentEvents.EventsRaised | hls/TOE/rx_engine/rx_engine.cpp:667-975 | Exactly which segments raise each kind of event, never two at once |
| SegmentEvents.ResetsRaised | hls/TOE/rx_engine/rx_engine.cpp:775-858 | Exactly which segments are answered with RST, and the number it acknowledges; never a RST |
| SegmentEvents.OpensAreTold | hls/TOE/rx_engine/rx_engine.cpp:836-960 | Success of an active open is told exactly with the step to ESTABLISHED, failure exactly with a reset |
| SegmentEvents.ClientsAndTimers | hls/TOE/rx_engine/rx_engine.cpp:744-760 | A new client is announced exactly when a passive open completes, the close timer started exactly when TIME_WAIT is entered |
| SegmentEvents.RetransmitTimer | hls/TOE/rx_engine/rx_engine.cpp:671-958 | The retransmit timer hears of every acknowledgement and is stopped exactly when all is acknowledged or the session is reset |
| SegmentEvents.ApplicationIsTold | hls/TOE/rx_engine/rx_engine.cpp:723-956 | Notified lengths are those of stored payload; the end of the stream is told exactly for the FINs named and for resets |
| SegmentEvents.PayloadStoredExactly | hls/TOE/rx_engine/rx_engine.cpp:706-900 | Exactly which payload gets the flag to be stored and which the flag to be dropped, state by state |
| SegmentEvents.FinOverfills | hls/TOE/rx_engine/rx_engine.cpp:872-900 | A concrete FIN-ACK whose payload is stored without free space |
| SegmentEvents.StoredIsExpected | hls/TOE/rx_engine/rx_engine.cpp:706-900 | The expected sequence number moves by exactly what is stored, plus one for a FIN, and is initialised exactly by accepted SYNs |
| SegmentEvents.CongestionWindow | hls/TOE/rx_engine/rx_engine.cpp:684-704 | The window written back: one MSS more below the threshold, one byte above it, unchanged by a duplicate, never smaller, up to its cap |
| FastRetransmit.AnswerCounts | hls/TOE/rx_engine/rx_engine.cpp:674-704 | What is written to the table stands for the number of duplicates in a row |
| FastRetransmit.CountersSane | hls/TOE/rx_engine/rx_engine.cpp:695-704 | Over any run the flag is set with the third duplicate |
| FastRetransmit.ThirdDuplicateExactly | hls/TOE/rx_engine/rx_engine.cpp:674-733 | Over any run of the transmit window: a fast retransmission is asked for exactly by the third duplicate in a row, so once until new data is acknowledged |
| FastRetransmit.ReceivedIsAcknowledgedInRuns | hls/TOE/rx_engine/rx_engine.cpp:730-739 | Over any run payload and FINs raise exactly their event |
| TcpFsm.OnSyn | hls/TOE/rx_engine/rx_engine.cpp:784-832 | The same for the SYN branch: new session, repeated SYN, SYN out of place |
| TcpFsm.OnSynAck | hls/TOE/rx_engine/rx_engine.cpp:833-871 | The same for the SYN-ACK branch, accepted or answered with RST |
| TcpFsm.OnFinAck | hls/TOE/rx_engine/rx_engine.cpp:872-934 | The same for the FIN-ACK branch, with the untested acknowledgement it writes |
| TcpFsm.OnOther | hls/TOE/rx_engine/rx_engine.cpp:935-974 | The same for RST and for everything else: one state write, whatever the segment |
| TcpFsm.RxEngTcpFsm.Step | hls/TOE/rx_engine/rx_engine.cpp:628-978 | A step of the class is the two-phase step of the specification: load and ask the tables, then wait for the replies it asked for and respond |
| StateTable.Table.Step | hls/TOE/state_table/state_table.cpp:80-201 | One call serves the first request in the code's order of priority, or retries a delayed access, exactly as the lock specification says |
| StateTable.TxAppIf.Step | hls/TOE/tx_app_if/tx_app_if.cpp:91-139 | Opening writes SYN_SENT without a read; closing reads first and then always writes, so that the lock is released |
| SessionLocks.RxClientIsFsmStep | hls/TOE/rx_engine/rx_engine.cpp:628-665 | In the composition the RX engine's part is the state machine's own step: one state write for each read, on every branch |
| SessionLocks.AppClientIsAppStep | hls/TOE/tx_app_if/tx_app_if.cpp:91-139 | The same for the application interface |
| SessionLocks.EveryEdgeHasSegment | hls/TOE/rx_engine/rx_engine.cpp:667-975 | The legal edges are not wider than the code: each one is taken for some segment and table entries |
| SessionLocks.RxReadModifyWrite | hls/TOE/state_table/state_table.cpp:110-136 | Over any run, from the RX engine's read to the release of its lock the entry keeps the value read, and then holds the state computed from that value |
| SessionLocks.TxReadModifyWrite | hls/TOE/state_table/state_table.cpp:80-103 | The same for a close of the application interface |
| SessionLocks.LegalRuns | hls/TOE/state_table/state_table.cpp:80-201 | Over any run from power-up, each change of each entry is a legal edge made by the process that may make it; FIN_WAIT_2 never appears |
| SessionLocks.ReleasedRuns | hls/TOE/state_table/state_table.cpp:104-197 | Over any run from power-up: an ID is released exactly when a timer's close or the RX engine's write leaves its entry closed, so with every close; nothing else is released, and queries are answered with the entry |
| SessionLocks.OnlyTableReleases | hls/TOE/state_table/state_table.cpp:104-197 | No other step releases or answers |
| SessionLocks.ReleasedWhenClosed | hls/TOE/state_table/state_table.cpp:122-124 | After power-up any segment but a SYN has its ID released although every session is closed |
| SessionLocks.StepCarries | hls/TOE/state_table/state_table.cpp:80-201 | The requests of a port are carried out in order: a write leaves its state, a read is answered with the entry and locks it |
| StateTable.AppOutcome | hls/TOE/tx_app_if/tx_app_if.cpp:91-139 | A FIN event exactly with the write of FIN_WAIT_1, a SYN event exactly with SYN_SENT for a session found; otherwise one status, a refused open or one passed on |
| SessionLocks.WaitersHoldNothing | hls/TOE/state_table/state_table.cpp:84-86 | A delayed process holds no lock, the two never delay each other, and the release of a lock is never delayed |
| SessionLocks.StepsFinishWork | hls/TOE/state_table/state_table.cpp:152-200 | Without new input every step changes nothing or leaves less work: no livelock |
| SessionLocks.NoDeadlock | hls/TOE/state_table/state_table.cpp:80-201 | As long as work is left some process has a step that finishes part of it, from every reachable state |
| SessionLocks.IdleWhenDone | hls/TOE/state_table/state_table.cpp:80-201 | With no work left nothing is locked or waiting |
| SessionLookup.SessionIdManager.Step | hls/TOE/session_lookup_controller/session_lookup_controller.cpp:46-58 | A released ID is reused before a new one is drawn from the counter |
| SessionLookup.LookupReplyHandler.Step | hls/TOE/session_lookup_controller/session_lookup_controller.cpp:115-188 | The three phases of a lookup with its query cache and insert queue; what is answered is SessionAnswers |
| SessionAnswers.EachQueryAnswered | hls/TOE/session_lookup_controller/session_lookup_controller.cpp:115-188 | Over any run from power-up each client gets one answer per query, in the order asked: a hit with the ID the memory held for the tuple when it was looked up, a hit with the free ID if a session is created, else a miss |
| SessionAnswers.NewSessionIsKeyed | hls/TOE/session_lookup_controller/session_lookup_controller.cpp:165-188 | When a new session is answered the tuple of the query is the key its ID stands for, and the memory, with its queued updates, maps the tuple to it |
| SessionAnswers.ReverseRuns | hls/TOE/session_lookup_controller/session_lookup_controller.cpp:254-299 | Over any run the reverse table answers a query with the key of a valid ID, and a release of a valid ID frees its port and deletes its key, of any other nothing |
| SessionAnswers.OnlyReverseAnswers | hls/TOE/session_lookup_controller/session_lookup_controller.cpp:254-299 | No other step writes these streams |
| SessionLookup.UpdateRequestSender.Step | hls/TOE/session_lookup_controller/session_lookup_controller.cpp:201-216 | Inserts go before deletes; a deleted ID goes to the finish FIFO; the counter follows |
| SessionLookup.ReverseLookupTable.Step | hls/TOE/session_lookup_controller/session_lookup_controller.cpp:254-299 | The reverse table on its two arrays: insert, release with a delete only when valid, and the lookup for the TX engine |
| SessionLookup.PartitionRuns | hls/TOE/session_lookup_controller/session_lookup_controller.cpp:40-300 | In every run each ID below the counter is in exactly one place (free list, finish FIFO, insert path, valid in the reverse table, delete path) and no other ID is anywhere |
| SessionLookup.InsertIsFresh | hls/TOE/session_lookup_controller/session_lookup_controller.cpp:150-155 | The key of a queued insert is not in the memory, not even after all queued updates |
| SessionLookup.InsertNeverOverwrites | hls/TOE/testbench/test_toe.cpp:414-462 | In every run no insert that reaches the CAM overwrites a key |
| SessionLookup.MemoryInjective | hls/TOE/testbench/test_toe.cpp:414-462 | Once the queued updates are applied two keys never share an ID |
| SessionLookup.IndexesAgree | hls/TOE/session_lookup_controller/session_lookup_controller.cpp:267-289 | For each valid ID the CAM, after its queued updates, maps the reverse entry back to that ID |
| SessionLookup.QuietIndexesAreInverse | hls/TOE/session_lookup_controller/session_lookup_controller.cpp:242-300 | With nothing in flight the CAM is exactly the inverse of the valid part of the reverse table |
| SessionLookup.FreeIdsUnused | hls/TOE/session_lookup_controller/session_lookup_controller.cpp:150-152 | An ID on the free list stands for no key anywhere |
| SessionLookup.IdsSupplied | hls/TOE/session_lookup_controller/session_lookup_controller.cpp:46-58 | Over any run the manager supplies one more free ID per step until every ID is in use |
| SessionLookup.UsedCountsTheMemory | hls/TOE/session_lookup_controller/session_lookup_controller.cpp:201-216 | The session counter is the size of the CAM after its queued updates and never exceeds MAX_SESSIONS |
| TxTables.TxSarTable.Step | hls/TOE/tx_sar_table/tx_sar_table.cpp:69-208 | One request per call in the code's priority, on the table array: for each kind of request the replies, the push, the queues and the whole new table, and nothing without one; what the window pushed is, TxTables.MinWindowIs states |
| TxTables.MinWindowIs | hls/TOE/tx_sar_table/tx_sar_table.cpp:127-192 | The pushed window is at most the congestion window, at most the announced window, and the smaller of the two exactly if the announced one fits 18 bits or its rest does not undercut the congestion window |
| TxTables.AnnouncedFits | hls/TOE/tx_sar_table/tx_sar_table.cpp:127-192 | It fits with every shift the option parser lets through |
| TxTables.RefusedExactly | hls/TOE/tx_app_stream_if/tx_app_stream_if.cpp:74-106 | Each reason for a refusal, exactly, with the space reported; the buffer is never the reason |
| TxAnnounced.AdmittedWithinAnnounced | hls/TOE/tx_sar_table/tx_sar_table.cpp:163-192 | Over any run an admitted write ends at or before the acknowledgement that was read plus the congestion window, and plus the window the peer announced with it if an ACK brought it |
| TxAnnounced.AdmittedExactly | hls/TOE/tx_app_stream_if/tx_app_stream_if.cpp:74-106 | And no write that fits both is refused |
| TxAnnounced.EngineReadsNewest | hls/TOE/tx_sar_table/tx_sar_table.cpp:106-149 | In every reachable state the TX engine reads the smaller of the newest announcement and the congestion window |
| TxAnnounced.ScaledAsMeant | hls/TOE/rx_engine/rx_engine.cpp:694-881 | Exactly which segments' windows are scaled as RFC 7323 section 2.2 means them |
| TxAnnounced.ScaleKept | hls/TOE/rx_engine/rx_engine.cpp:793-849 | The scale kept for a session: the peer's from a SYN-ACK; from a SYN exactly if it is 0 or 2 |
| TxWindow.HandshakeStarts | hls/TOE/tx_sar_table/tx_sar_table.cpp:73-91 | The SYN's write and the first acknowledgement lead to the state where the runs start |
| TxTables.ReadAfterWrite | hls/TOE/tx_sar_table/tx_sar_table.cpp:69-208 | What either engine writes is what the other, and it itself, reads next |
| TxWindow.LoaderAsks | hls/TOE/tx_engine/tx_engine.cpp:371-380 | The threshold is lowered by a timer's first retransmission and by nothing else |
| TxWindow.EngineEffects | hls/TOE/tx_sar_table/tx_sar_table.cpp:73-100 | A retransmission sets the two windows and nothing else; FIN flags are set for good |
| TxTables.TxAppTable.Step | hls/TOE/tx_app_interface/tx_app_interface.cpp:143-175 | An acknowledgement push goes first and, outside initialisation, leaves the write pointer alone |
| TxTables.TasiMetaLoader.Request | hls/TOE/tx_app_stream_if/tx_app_stream_if.cpp:62-69 | A request asks for state and pointers |
| TxTables.TasiMetaLoader.Decide | hls/TOE/tx_app_stream_if/tx_app_stream_if.cpp:70-108 | The decision and everything written for it: refusal with its reason, or command, response, event and new write pointer |
| TxTables.AdmissionIsWindowTest | hls/TOE/tx_app_stream_if/tx_app_stream_if.cpp:74-106 | In unbounded counters a write is admitted exactly when the session is established and the data stays within the window; the 18-bit subtractions never mislead it |
| TxWindow.WindowConservation | hls/TOE/tx_engine/tx_engine.cpp:168-219 | In every interleaving: ackd <= not_ackd <= mempt, mempt - ackd < 2^18, and mempt is not_ackd plus the TX events in flight |
| TxWindow.AdmittedWithinWindow | hls/TOE/tx_app_stream_if/tx_app_stream_if.cpp:74-106 | Each admitted write keeps mempt - ackd within the min_window it was decided with, although its ackd is stale |
| TxWindow.SentAtItsOffset | hls/TOE/tx_engine/tx_engine.cpp:178-203 | The buffer offset of a TX event and the sequence number it is sent under are the same position |
| TxWindow.TestedAcks | hls/TOE/rx_engine/rx_engine.cpp:694-704 | The assumption on acknowledgements holds by itself for every ACK, SYN-ACK and other segment but SYN and FIN-ACK |
| TxWindow.AcceptableExactly | hls/TOE/rx_engine/rx_engine.cpp:872-880 | A segment that is not a SYN meets the assumption exactly when it is not an accepted FIN with an acknowledgement outside the window |
| TxWindow.UntestedFinAck | hls/TOE/rx_engine/rx_engine.cpp:872-880 | A concrete FIN that acknowledges a byte never sent and is written to the table |
| TxFidelity.FetchIsStream | hls/TOE/tx_engine/tx_engine.cpp:366-369 | A circular fetch returns the application's stream at every position that is stored and not yet overwritten |
| TxFidelity.BufferHoldsUnacked | hls/TOE/tx_app_stream_if/tx_app_stream_if.cpp:98-106 | In every run a stored byte lies at its sequence number modulo 2^18 until it is acknowledged |
| TxFidelity.ByteSent | hls/TOE/tx_engine/tx_engine.cpp:350-506 | In every run, through the memory commands of the code: a packet whose read is cut rightly is well packed, and each of its bytes is the application's byte of the last stored position that shares its place in the buffer |
| TxFidelity.PlacesKnown | hls/TOE/tx_engine/tx_engine.cpp:350-506 | That position is the byte's own exactly when it was stored and not overwritten at the read: so for all new data, and for every repeated byte that was stored and unacknowledged |
| TxFidelity.ReadableExactly | hls/TOE/memory_access/memory_access.cpp:97-121 | Which repeated packets are cut rightly: in even sessions all but those of full words that end exactly at the buffer end; in odd ones those that reach that end and the few that end at a multiple of 2^16 |
| TxFidelity.Fidelity | hls/TOE/tx_engine/tx_engine.cpp:350-506 | Any two packets of a run, new or repeated with a right cut, carry the same byte at the same sequence position, the application's, if at both reads it was stored and not overwritten |
| TxFidelity.ReadBackExact | hls/TOE/tx_engine/tx_engine.cpp:410-422 | A repeated packet with a right cut that is read when its data is stored and its first byte unacknowledged carries exactly the bytes of its sequence numbers, well packed |
| TxOverrun.OverrunDiffers | hls/TOE/tx_engine/tx_engine.cpp:410-422 | A run in which the queued read of the one segment sent is overtaken by its acknowledgement and a full window of application writes: ones in the packet, twos in the first half of the repeated one with the same sequence number |
| TxOverrun.EarlyRead | hls/TOE/tx_engine/tx_engine.cpp:410-422 | A run in which the read is done ahead of the buffer write: the repeated packet carries what was in the buffer before |
| Retransmit.RtCoverage | hls/TOE/tx_engine/tx_engine.cpp:350-506 | One RT event: contiguous segments of at most MSS covering exactly [ackd, ackd + min(usedLength_rst, 4 MSS)), at most four, and the FIN exactly when that is all the data |
| Retransmit.RtRunCovers | hls/TOE/tx_engine/tx_engine.cpp:431-505 | The same from any segment count on |
| Retransmit.RtFinFollowsData | hls/TOE/tx_engine/tx_engine.cpp:613-647 | A timer-driven repetition of the FIN uses the number right behind the data, and the data excludes the FIN |
| Retransmit.RtDataLength | hls/TOE/tx_sar_table/tx_sar_table.cpp:111-113 | Without a FIN usedLength_rst is all that was sent and not acknowledged |
| Retransmit.TxMetaLoader.Take | hls/TOE/tx_engine/tx_engine.cpp:113-161 | An event is taken and both table entries are asked for |
| Retransmit.ReplyIs | hls/TOE/tx_sar_table/tx_sar_table.cpp:106-149 | What the TX engine reads, in unbounded counters: pointers, bytes in flight, and what is left of the smaller window |
| Retransmit.TxMetaLoader.SendNew | hls/TOE/tx_engine/tx_engine.cpp:168-222 | A TX event is sent at not_ackd with its own length: each header field is the one read, ACK is the only flag; not_ackd moves behind it; the probe timer is set when the window is short |
| Retransmit.TxMetaLoader.SendAck | hls/TOE/tx_engine/tx_engine.cpp:508-533 | An acknowledgement alone: the acknowledgement and window read, the next sequence number, no other flag |
| Retransmit.ThresholdExactly | hls/TOE/tx_engine/tx_engine.cpp:371-380 | The threshold is max(FlightSize / 2, 2 MSS) (RFC 5681 section 3.1) exactly while less than 2^17 bytes are in flight; its variable has 16 bits |
| Retransmit.TxMetaLoader.LoadRetransmit | hls/TOE/tx_engine/tx_engine.cpp:350-380 | The start of a retransmission, with the lower threshold, in 16 bits, on the first timer-driven one |
| Retransmit.TxMetaLoader.RetransmitSegment | hls/TOE/tx_engine/tx_engine.cpp:382-503 | One retransmitted segment: its header with the sequence number of its data and what was read, its read command in the session's own buffer, and the state behind it |
| Retransmit.TxMetaLoader.RepeatFin | hls/TOE/tx_engine/tx_engine.cpp:613-666 | The FIN behind a retransmission: its header field by field; it leaves the table alone when timer-driven |
| TxDelivery.HeadersAreRight | hls/TOE/tx_engine/tx_engine.cpp:175-206 | Over any run, for new data and every repeated packet: the header carries the sequence number of the packet's first byte, the acknowledgement and window read for it, its length and ACK alone |
| TxDelivery.ReadsAreRight | hls/TOE/tx_engine/tx_engine.cpp:366-369 | Over any run a read command names the session's own buffer and the place of the position it repeats |
| TxDelivery.DeliveredAsWritten | hls/TOE/tx_engine/tx_engine.cpp:168-506 | Over any run the receiver of a packet that was read rightly and in place finds these fields and, as payload, the application's bytes of the positions |
| TxDelivery.AcknowledgementDelivered | hls/TOE/tx_engine/tx_engine.cpp:508-647 | A bare acknowledgement and a FIN arrive with what was read, their flags, and no payload |
| RxTables.RxSarTable.Step | hls/TOE/rx_sar_table/rx_sar_table.cpp:65-109 | One request per call: TX engine, application, RX engine; for each the request consumed, the reply, the queues and the whole new table |
| RxTables.RxAppStreamIf.Step | hls/TOE/rx_app_stream_if/rx_app_stream_if.cpp:61-88 | The application's read pointer moves by the length it asked for |
| RxWindow.InOrderExactlyOnce | hls/TOE/rx_engine/rx_engine.cpp:706-729 | For any input segments: accepted ranges are contiguous from IRS + 1, recvd is IRS + 1 plus their lengths plus one per FIN, and the notifications carry exactly those lengths in order |
| RxWindow.AcceptedInOrder | hls/TOE/rx_engine/rx_engine.cpp:712-713 | A segment is accepted only right behind everything accepted before |
| RxWindow.ChainAt | hls/TOE/rx_engine/rx_engine.cpp:706-729 | The k-th accepted segment begins where the first k end: no gap, overlap or duplicate |
| RxWindow.AcceptedIsAcknowledged | hls/TOE/rx_engine/rx_engine.cpp:706-739 | Over any run each accepted segment has its own event, in order, that sends an acknowledgement |
| RxWindow.InitialisationStarts | hls/TOE/rx_sar_table/rx_sar_table.cpp:92-104 | An accepted SYN leaves the byte behind it expected, the whole buffer free and the code's own shift exactly if the peer scales |
| RxWindow.AdvertisedIs | hls/TOE/rx_sar_table/rx_sar_table.cpp:66-82 | In every reachable state the TX engine is told the next byte expected, and, where the field holds it, the whole free space scaled down |
| RxWindow.WindowFieldExactly | hls/TOE/rx_sar_table/rx_sar_table.cpp:72-80 | The window field is the free space scaled down exactly while that is below 2^16 |
| RxWindow.ScaledWindowFits | hls/TOE/rx_sar_table/rx_sar_table.cpp:72-80 | With the code's own shift it always is |
| RxWindow.UnscaledWindowWraps | hls/TOE/rx_sar_table/rx_sar_table.cpp:72-80 | Without scaling 2^16 free bytes are advertised as none |
| RxWindow.NeverOvertaken | hls/TOE/rx_sar_table/rx_sar_table.cpp:66-109 | In every interleaving recvd - appd stays below 2^18, stale snapshots included |
| RxWindow.AdvertisedFits | hls/TOE/rx_sar_table/rx_sar_table.cpp:66-82 | The advertised window, scaled, never reaches past the space the application has freed (RFC 7323 section 2.3) |
| RxWindow.InsideAdvertisementPasses | hls/TOE/rx_engine/rx_engine.cpp:708-713 | An in-order segment is accepted exactly when it ends strictly inside the space seen, so whenever it ends strictly inside any earlier advertisement |
| RxWindow.ExactFillDropped | hls/TOE/rx_engine/rx_engine.cpp:710-713 | A segment that fills the advertised window to the last byte is dropped |
| Words.ShiftPacked | hls/TOE/common_utilities/common_utilities.cpp:622-903 | Realigning by k lanes: whatever payload lies in the input from lane k on comes out as well-packed words with one last flag |
| Words.ShiftUnrolls | hls/TOE/memory_access/memory_access.cpp:747-777 | A packet realigned as a whole is what a process sends that realigns word by word and flushes an extra word when needed |
| Words.ShiftDrops | hls/TOE/common_utilities/common_utilities.cpp:622-903 | Dropping any number of bytes from the front of a packet by realigning behind the word in which they end |
| Words.HeaderInFront | hls/TOE/tx_engine/tx_engine.cpp:936-1012 | A header of n bytes held at the end of a word and the packet realigned behind it are the packet with that header |
| CircularBuffer.StoreExactly | hls/TOE/testbench/dummy_memory.cpp:37-101 | A store writes byte i at (addr + i) modulo the buffer size and nothing else |
| CircularBuffer.FetchAfterStore | hls/TOE/testbench/dummy_memory.cpp:37-101 | A fetch of a range returns what was last stored there |
| CircularBuffer.WriteWordsStores | hls/TOE/testbench/dummy_memory.cpp:80-101 | A burst of words written with their keep bits is one circular store of its bytes |
| CircularBuffer.ReadWordsPacked | hls/TOE/testbench/dummy_memory.cpp:55-78 | A burst read word by word is the fetched range, well packed |
| BufferWrite.WriteStores | hls/TOE/memory_access/memory_access.cpp:637-780 | The one or two bursts of a write, for every length below 65536 and every place, store byte i at (addr + i) modulo 2^18 and nothing elsewhere |
| BufferWrite.CommandsMatchExactly | hls/TOE/memory_access/memory_access.cpp:673-735 | Every command gets a burst of its own length exactly when the write does not end at the very end of the buffer |
| BufferWrite.TxDataToMemory.WaitForCommand | hls/TOE/memory_access/memory_access.cpp:668-703 | The command, cut at the end of the buffer |
| BufferWrite.TxDataToMemory.ForwardFirst | hls/TOE/memory_access/memory_access.cpp:717-746 | A word of the first burst; the last one is cut and what is left is held |
| BufferWrite.TxDataToMemory.ForwardSecond | hls/TOE/memory_access/memory_access.cpp:747-769 | A word of the second burst, realigned |
| BufferWrite.TxDataToMemory.ForwardWord | hls/TOE/memory_access/memory_access.cpp:704-716 | A word of a write that is not cut |
| BufferWrite.TxDataToMemory.ForwardExtra | hls/TOE/memory_access/memory_access.cpp:770-777 | The extra word |
| BufferRead.BreaksExactly | hls/TOE/toe.hpp:593-600 | The overflow test agrees with the range passing the buffer end exactly for addresses with bit WINDOW_BITS clear |
| BufferRead.CommandsAre | hls/TOE/memory_access/memory_access.cpp:97-121 | With the bit clear the commands are the range cut at the end of the buffer, with the offset the aligner needs |
| BufferRead.ReadExactly | hls/TOE/memory_access/memory_access.cpp:324-486 | For every address, length and content: the read is the range as one well-packed packet exactly when the cut is right, or when the place it goes to instead holds the same bytes |
| BufferRead.ReadsRightExactly | hls/TOE/memory_access/memory_access.cpp:97-121 | The reads that are right for all contents are exactly these: even sessions, all but full words that end at the buffer end; odd ones, those that reach the end, and partial last words that end at a multiple of 2^16 |
| BufferRead.ReadReturns | hls/TOE/memory_access/memory_access.cpp:324-486 | Each of those, in one burst or two, returns the range as one well-packed packet |
| BufferRead.RoundTrip | hls/TOE/memory_access/memory_access.cpp:324-486 | What tx_Data_to_Memory wrote to a range is what a right read of it returns; with bit WINDOW_BITS clear exactly unless full words end at the buffer end |
| BufferRead.OddSessionBreaks | hls/TOE/toe.hpp:593-600 | In the buffer of session 1 a read of the first 64 bytes is cut although it does not reach the end and comes back ill-packed, and one in the middle comes back with bytes of another place |
| BufferRead.TxReadMemAccessBreakdown.FirstCommand | hls/TOE/memory_access/memory_access.cpp:97-115 | The first command and the description for the aligner |
| BufferRead.TxReadMemAccessBreakdown.SecondCommand | hls/TOE/memory_access/memory_access.cpp:116-121 | The second command starts at the beginning of the buffer |
| BufferRead.TxMemDataReadAligner.Step | hls/TOE/memory_access/memory_access.cpp:362-474 | One step of the aligner is one step of the specification in each of its states |
| BufferRead.TxMemDataReadAligner.ExtraStep | hls/TOE/memory_access/memory_access.cpp:475-483 | The extra words |
| WireTx.PseudoStitched | hls/TOE/tx_engine/tx_engine.cpp:936-1012 | The payload stitcher sends pseudo header, TCP header and payload as one well-packed packet |
| WireTx.PacketBuilt | hls/TOE/tx_engine/tx_engine.cpp:1024-1170 | Pseudo header removed and IP header put in front: the packet sent is IP header, TCP header with the checksum in place, payload |
| WireTx.TxEngPayloadStitcher.ReadPseudo | hls/TOE/tx_engine/tx_engine.cpp:957-971 | A header goes out alone, or its 32 bytes are held for the payload |
| WireTx.TxEngPayloadStitcher.ReadWord | hls/TOE/tx_engine/tx_engine.cpp:972-1000 | One realigned word |
| WireTx.TxEngPayloadStitcher.SendExtra | hls/TOE/tx_engine/tx_engine.cpp:1001-1009 | The extra word |
| WireTx.TxEngPseudoHeaderRemover.First | hls/TOE/tx_engine/tx_engine.cpp:1123-1159 | The first word is held unless it is the last |
| WireTx.TxEngPseudoHeaderRemover.Next | hls/TOE/tx_engine/tx_engine.cpp:1137-1159 | One word realigned by 12 |
| WireTx.TxEngPseudoHeaderRemover.SendExtra | hls/TOE/tx_engine/tx_engine.cpp:1160-1167 | The extra word |
| WireTx.TxEngIpPktStitcher.ReadFirstWord | hls/TOE/tx_engine/tx_engine.cpp:1043-1070 | IP header, first 44 bytes, checksum inserted |
| WireTx.TxEngIpPktStitcher.ReadWord | hls/TOE/tx_engine/tx_engine.cpp:1071-1094 | One word realigned behind the IP header |
| WireTx.TxEngIpPktStitcher.SendExtra | hls/TOE/tx_engine/tx_engine.cpp:1095-1102 | The extra word |
| WireRx.InsertCarries | hls/TOE/rx_engine/rx_engine.cpp:83-175 | For every header length but 9: the pseudo header read off the IP header, in front of the segment, well packed |
| WireRx.InsertExactly | hls/TOE/common_utilities/common_utilities.cpp:954-1033 | The pseudo header is inserted correctly exactly for the header lengths other than 9 |
| WireRx.ByteOffsetExactly | hls/TOE/rx_engine/rx_engine.cpp:340-340 | The payload offset is the one the header names exactly up to a data offset of 12 |
| WireRx.PayloadExactly | hls/TOE/rx_engine/rx_engine.cpp:284-386 | For every data offset but 13, with or without padding: the metadata is that of the header, and the payload sent is the one the length field names exactly when the offset is at most 12 and nothing follows, or, for an empty one, when there is a single word |
| WireRx.PayloadSentExactly | hls/TOE/rx_engine/rx_engine.cpp:341-384 | For every data offset but 13: payload words are sent exactly when the length is not zero or the packet has more than one word, and they have one last flag |
| WireRx.WireRoundTrip | hls/TOE/tx_engine/tx_engine.cpp:824-1170 | For every metadata, tuple and payload: built by the TX engine, taken apart by the RX engine, the same addresses, ports, numbers, window, flags, length and bytes |
| WireRx.TcpLayout | hls/TOE/tx_engine/tx_engine.cpp:862-925 | The TCP header byte by byte (RFC 793 section 3.1) |
| WireRx.FlagBits | hls/TOE/tx_engine/tx_engine.cpp:886-891 | Its flag bits |
| WireRx.OptionLayout | hls/TOE/tx_engine/tx_engine.cpp:893-925 | The options of a SYN: MSS 4096, and the scale if there is one |
| WireRx.IpLayout | hls/TOE/tx_engine/tx_engine.cpp:777-787 | The IPv4 header byte by byte (RFC 791 section 3.1), its length that of the packet |
| WireRx.PseudoLayout | hls/TOE/tx_engine/tx_engine.cpp:862-867 | The pseudo header, its length that of header and payload |
| WireRx.InsertPseudoMore | hls/TOE/rx_engine/rx_engine.cpp:107-172 | The inserter of the whole-packet results is what the steps send: the second word combined and with the pseudo header over it, then the rest |
| WireRx.InsertPseudoOne | hls/TOE/rx_engine/rx_engine.cpp:107-136 | A packet of one word goes out at once, with the pseudo header over it |
| WireRx.InsertUnrolls | hls/TOE/rx_engine/rx_engine.cpp:137-172 | The rest word by word, with an extra word exactly when the last one has a lane left |
| WireRx.RxEngPseudoHeaderInsert.FirstWord | hls/TOE/rx_engine/rx_engine.cpp:107-136 | The fields of the first word; a packet of one word goes out at once |
| WireRx.RxEngPseudoHeaderInsert.NextWord | hls/TOE/rx_engine/rx_engine.cpp:137-163 | One combined word, the first with the pseudo header over it |
| WireRx.RxEngPseudoHeaderInsert.ExtraWord | hls/TOE/rx_engine/rx_engine.cpp:164-172 | The extra word |
| WireRx.RxEngGetMetaData.FirstWord | hls/TOE/rx_engine/rx_engine.cpp:306-355 | The metadata; the payload of a packet of one word |
| WireRx.RxEngGetMetaData.NextWord | hls/TOE/rx_engine/rx_engine.cpp:356-377 | One realigned word of the payload |
| WireRx.RxEngGetMetaData.ExtraWord | hls/TOE/rx_engine/rx_engine.cpp:378-384 | The extra word |
| ChecksumTree.Reduce7Counts | RTL/7to3_reducer_i.vhd:46-62 | The three lookup tables of the 7 to 3 reducer give the number of ones among its inputs, in binary |
| ChecksumTree.Reduce6Counts | RTL/6to3_reducer_i.vhd:46-64 | The same for the 6 to 3 reducer |
| ChecksumTree.OnesValueIs | RTL/checksumRed34to2.v:217-227 | The one's complement value that every level keeps: equal modulo 2^16 - 1, and zero only for nothing but zeros |
| ChecksumTree.Csa7Keeps | RTL/checksumRed34to2.v:76-95 | A group of counters with its carries rotated turns seven words into three of the same one's complement value |
| ChecksumTree.LastLevelKeeps | RTL/checksumRed34to2.v:197-211 | So does the last level from three words to two |
| ChecksumTree.TreeKeeps | RTL/checksumRed34to2.v:73-215 | So does the whole tree from 34 words to two |
| TcpChecksumAxis.OnesSumIs | RTL/tcp_checksum_axis.v:149-155 | Adding carries back word by word (RFC 1071 section 1) or once at the end gives the same sum, 0 and 0xFFFF told apart |
| TcpChecksumAxis.PacketSum | RTL/tcp_checksum_axis.v:88-118 | The masked words of a packet sum to the checksum of its bytes, an odd last byte padded, and nothing is carried to the next packet |
| TcpChecksumAxis.RunDelivers | RTL/tcp_checksum_axis.v:84-157 | Whatever is offered and whenever results are taken: the results handed over are those of the accepted words, in order, none lost or overwritten, at most one to come |
| TcpChecksumAxis.RunHandsOver | RTL/tcp_checksum_axis.v:84-157 | The results of all words accepted so far are handed over once one edge has passed and, at any later one, the result is taken: two edges later if it always is |
| TcpChecksumAxis.RunAccepts | RTL/tcp_checksum_axis.v:62-157 | The unit does not stop accepting: of words offered at three edges in a row, with the result taken, at least one goes in |
| TcpChecksumAxis.RunChecksums | RTL/tcp_checksum_axis.v:84-157 | For packets of every length the results are their RFC 1071 checksums |
| TcpChecksumAxis.ChecksumUnit.ClockEdge | RTL/tcp_checksum_axis.v:84-157 | All registers after a clock edge |
| TransmittedChecksum.AcceptedExactly | hls/TOE/rx_engine/rx_engine.cpp:422-437 | A segment is accepted exactly when its checksum field holds the checksum of the pseudo packet that was sent, in either representation of zero |
| TransmittedChecksum.TransmittedVerifies | hls/TOE/tx_engine/tx_engine.cpp:1042-1070 | From the TX engine's checksum unit to the RX engine's, under any timing of both: whatever is delivered for what is transmitted is zero |
| TransmittedChecksum.SentInTime | hls/TOE/tx_engine/tx_engine.cpp:1042-1070 | The TX engine's unit does deliver its result, the checksum of the pseudo packet |
| TransmittedChecksum.VerifiedInTime | hls/TOE/rx_engine/rx_engine.cpp:422-437 | The RX engine's unit does deliver its result, and it is zero |
| TransmittedChecksum.ComputeAndInsertIpChecksum | hls/ethernet_inserter/ethernet_header_inserter.cpp:219-294 | The adder tree and two folds leave the complement of the header's one's complement sum in bytes 10 and 11, everything else as it was |
| TransmittedChecksum.AdderLevel | hls/ethernet_inserter/ethernet_header_inserter.cpp:259-277 | A level of the adder tree adds neighbours and passes an odd word |
| TransmittedChecksum.FiveLevels | hls/ethernet_inserter/ethernet_header_inserter.cpp:259-279 | Five levels make one sum of the thirty words |
| TransmittedChecksum.IpHeaderVerifies | hls/ethernet_inserter/ethernet_header_inserter.cpp:219-294 | For every header length 5 to 15 the header sums to 0xFFFF exactly for the checksum computed, in either representation |
| DropPipeline.ForwardedExactly | hls/TOE/rx_engine/rx_engine.cpp:989-1038 | In every run of well-formed segments (words only with payload, and payload that reaches the state machine on ACK and FIN-ACK only) the payload forwarded is exactly that of the segments all three stages accept, in order and word for word |
| DropPipeline.NothingStuck | hls/TOE/rx_engine/rx_engine.cpp:404-556 | In such a run, when the stages are empty and the dropper cannot go on, every packet is done: no flag and no word is missing or left over |
| DropPipeline.ConditionExactly | hls/TOE/rx_engine/rx_engine.cpp:284-386 | The condition is exact: a segment of any shape the wire can bring leaves all runs, among well-formed ones, with both properties if and only if it is matched |
| DropWire.MatchedOnWire | hls/TOE/rx_engine/rx_engine.cpp:303-384 | Told from the packet: every packet makes a segment of that shape, and it is matched exactly when it has payload and, where it reaches the state machine, is an ACK or FIN-ACK, or has none and fits in one word |
| DropWire.HarmlessExactly | hls/TOE/rx_engine/rx_engine.cpp:284-1038 | Exactly those packets leave each payload packet judged by its own segment in all runs |
| DropPipeline.OwnFlag | hls/TOE/rx_engine/rx_engine.cpp:1008-1025 | A flag the dropper reads is the one its current packet's own segment was given, wherever the invariant of the runs of well-formed segments holds (for any function that adds up the flags owed, as Flags does by FlagsAdd) |
| DropPipeline.FlagsAdd | hls/TOE/rx_engine/rx_engine.cpp:404-1038 | The flags owed for a list of segments are those of its parts, one after the other |
| DropPipeline.InvStep | hls/TOE/rx_engine/rx_engine.cpp:404-1038 | Every step of every process, the arrival of a well-formed segment included, keeps the order of the flags, of the answers and of the payload matched |
| DropPipeline.FlagExactly | hls/TOE/rx_engine/rx_engine.cpp:667-975 | The state machine sends one flag for a payload on ACK or FIN-ACK and none otherwise |
| DropPipeline.Misjudged | hls/TOE/rx_engine/rx_engine.cpp:667-975 | Any payload segment that reaches the state machine and is neither ACK nor FIN-ACK: its packet is forwarded on the flag of the next accepted segment |
| DropPipeline.Strayed | hls/TOE/rx_engine/rx_engine.cpp:341-377 | Any segment without payload for which words were sent, however it is decided: its first word goes out in place of the next accepted payload, and if it is the only one all comes to rest with that payload still in the FIFO |
| DropPipeline.RxEngVerifyCheckSum.Step | hls/TOE/rx_engine/rx_engine.cpp:422-443 | One step of the process |
| DropPipeline.RxEngMetadataHandler.Step | hls/TOE/rx_engine/rx_engine.cpp:483-556 | One step of the process, with the RST event that answers a closed port: acknowledgement number and switched tuple; only a SYN or SYN-ACK may create a session |
| DropPipeline.ResetsGoBack | hls/TOE/rx_engine/rx_engine.cpp:490-502 | The reset for a closed port goes back to the sender and acknowledges what the segment occupies, exactly unless it is SYN and FIN at once |
| DropPipeline.RxEngPacketDropper.Step | hls/TOE/rx_engine/rx_engine.cpp:1005-1037 | One step of the process |
| SynOptions.ParsesList | hls/TOE/rx_engine/rx_engine.cpp:187-273 | Every well-formed list in the first 32 option bytes: done within optionsSize + 1 steps, byte_offset never wraps, the first Window Scale value capped or 0 is reported and nothing else changes |
| SynOptions.ParsesFrom | hls/TOE/rx_engine/rx_engine.cpp:218-269 | The same from any place in the list |
| SynOptions.CappedExactly | hls/TOE/rx_engine/rx_engine.cpp:240-247 | The cap is the smaller of the shift and 2, exactly unless only its low four bits make it smaller |
| SynOptions.SynSentIsRead | hls/TOE/tx_engine/tx_engine.cpp:824-925 | The options of the SYN the TX engine sends are such a list, and the scale read from them is the one sent, capped |
| SynOptions.EndsExactly | hls/TOE/rx_engine/rx_engine.cpp:203-269 | For any option bytes: the parsing of a SYN ends, within 34 steps, if and only if the walk over them never meets an unknown option of length zero |
| SynOptions.ZeroLengthStalls | hls/TOE/rx_engine/rx_engine.cpp:228-256 | An unknown option of length zero is never left |
| SynOptions.RxParseTcpOptions.ReadInfo | hls/TOE/rx_engine/rx_engine.cpp:203-216 | Only SYN segments with options are parsed |
| SynOptions.RxParseTcpOptions.ParseData | hls/TOE/rx_engine/rx_engine.cpp:218-269 | One option per step |
| Udp.LengthCounted | hls/UDP/udp.cpp:237-281 | The length appGetMetaData reports is the byte count of the packet, in 16 bits |
| Udp.KeepLengthInverse | hls/TOE/common_utilities/common_utilities.cpp:40-247 | keep2len undoes len2Keep |
| Udp.UdpRoundTrip | hls/UDP/udp.cpp:104-403 | udpRxEngine after udpTxEngine: every non-empty payload, addresses and ports with their roles changed |
| Udp.LengthFields | hls/UDP/udp.cpp:304-340 | The byte count is right exactly below 2^16 bytes, the IP length field is that count plus 28 exactly below 0xFFE4, the UDP one the count plus 8 (RFC 768) exactly below 0xFFF8; beyond they are the sums modulo 2^16 |
| Udp.HeaderLayout | hls/UDP/udp.cpp:317-334 | Both headers byte by byte (RFC 791 section 3.1, RFC 768) |
| Udp.RxTableHandler | hls/UDP/udp.cpp:58-90 | The first matching socket; dropped exactly when there is none or the address is another |
| Udp.AppGetMetaData.FirstWord | hls/UDP/udp.cpp:252-266 | The first word: socket, and the length of a packet of one word |
| Udp.AppGetMetaData.NextWord | hls/UDP/udp.cpp:267-279 | The count over the words of a packet |
| Udp.UdpTxEngine.ReadMetadata | hls/UDP/udp.cpp:304-313 | Both lengths, or the packet of an invalid socket dropped |
| Udp.UdpTxEngine.FirstWord | hls/UDP/udp.cpp:314-359 | Headers and the first 36 bytes of the payload |
| Udp.UdpTxEngine.NextWord | hls/UDP/udp.cpp:360-385 | One realigned word |
| Udp.UdpTxEngine.ExtraWord | hls/UDP/udp.cpp:386-393 | The extra word |
| Udp.UdpTxEngine.DropWord | hls/UDP/udp.cpp:394-400 | The payload of an invalid socket is read up to its last word and dropped |
| Udp.UdpRxEngine.FirstWord | hls/UDP/udp.cpp:128-155 | The metadata of the headers; the payload of a packet of one word |
| Udp.UdpRxEngine.NextWord | hls/UDP/udp.cpp:156-181 | One realigned word |
| Udp.UdpRxEngine.ExtraWord | hls/UDP/udp.cpp:182-188 | The extra word |
| EthernetFraming.FrameRoundTrip | hls/packet_handler/packet_handler.cpp:51-257 | packet_handler after handle_output: every TCP, UDP or ICMP packet unchanged and labelled, for any word count and last length |
| EthernetFraming.FrameDelivers | hls/ethernet_inserter/ethernet_header_inserter.cpp:33-294 | From the sender's IP packet to the receiver's: the same bytes but the checksum field, and a header that sums to 0xFFFF |
| EthernetFraming.FrameAddressed | hls/ethernet_inserter/ethernet_header_inserter.cpp:103-170 | The frame's first bytes: the address found, the own address, the type of IPv4 |
| EthernetFraming.OtherFrames | hls/packet_handler/packet_handler.cpp:182-232 | ARP comes out whole with its label; other protocols and types are dropped |
| EthernetFraming.NextHopIs | hls/ethernet_inserter/ethernet_header_inserter.cpp:57-60 | The destination is asked for exactly if it differs from the gateway in no bit of the mask |
| EthernetFraming.BroadcasterAndMacRequest.Step | hls/ethernet_inserter/ethernet_header_inserter.cpp:51-77 | First words and other words are separated; with each first word one MAC address is asked for, the destination's in the own subnet and the gateway's otherwise |
| EthernetFraming.HandleOutput.ReadReply | hls/ethernet_inserter/ethernet_header_inserter.cpp:103-119 | The Ethernet header, or a drop |
| EthernetFraming.HandleOutput.WriteFirstTransaction | hls/ethernet_inserter/ethernet_header_inserter.cpp:140-170 | The first word of the frame |
| EthernetFraming.HandleOutput.WriteNext | hls/ethernet_inserter/ethernet_header_inserter.cpp:172-199 | A further word |
| EthernetFraming.HandleOutput.WriteExtraWord | hls/ethernet_inserter/ethernet_header_inserter.cpp:201-210 | The extra word |
| EthernetFraming.HandleOutput.DropWord | hls/ethernet_inserter/ethernet_header_inserter.cpp:120-138 | A packet without an ARP entry is read from both FIFOs and dropped |
| EthernetFraming.PacketIdentification.FirstWord | hls/packet_handler/packet_handler.cpp:182-232 | The label, or a drop |
| EthernetFraming.PacketIdentification.NextWord | hls/packet_handler/packet_handler.cpp:233-257 | The rest of a packet follows its first word, forwarded with the same label or dropped |
| EthernetFraming.EthernetRemover.FirstWord | hls/packet_handler/packet_handler.cpp:65-93 | ARP packets stay, others are held |
| EthernetFraming.EthernetRemover.NextWord | hls/packet_handler/packet_handler.cpp:103-130 | One word realigned by 14 |
| EthernetFraming.EthernetRemover.ForwardWord | hls/packet_handler/packet_handler.cpp:94-102 | The rest of an ARP packet |
| EthernetFraming.EthernetRemover.ExtraWord | hls/packet_handler/packet_handler.cpp:131-141 | The extra word |
| AckDelay.EachAnsweredOnce | hls/TOE/ack_delay/ack_delay.cpp:48-75 | In every run absorptions and answers of a session alternate: each absorbed ACK is answered exactly once, none twice, and each answer is an event sent for its session |
| AckDelay.AnsweredInTime | hls/TOE/ack_delay/ack_delay.cpp:48-75 | An absorbed ACK is answered before TIME_64us * MAX_SESSIONS idle steps have passed, whatever events come |
| AckDelay.OthersPass | hls/TOE/ack_delay/ack_delay.cpp:53-60 | All other events are sent, in order |
| AckDelay.NotBefore | hls/TOE/ack_delay/ack_delay.cpp:62-75 | Without events a waiting ACK is not answered before its time |
| AckDelay.AbsorbedWaits | hls/TOE/ack_delay/ack_delay.cpp:48-61 | That is more than 322 rounds of the timer and at most 323 |
| AckDelay.SentBalance | hls/TOE/ack_delay/ack_delay.cpp:48-75 | Of a session's events the absorbed ACKs are missing in the output, and the timer's are added |
| AckDelay.AckDelayTable.TakeEvent | hls/TOE/ack_delay/ack_delay.cpp:48-61 | A step with an event, on the table array |
| AckDelay.AckDelayTable.Idle | hls/TOE/ack_delay/ack_delay.cpp:62-75 | A step of the timer, on the table array |

## Left out

- Clock timing, pragmas, FIFO depths and back-pressure of the HLS processes; only the checksum unit's handshake is modelled.
- Rx_Data_to_Memory, app_MemDataRead_aligner and rxEngAppNotificationDelayer: compiled out, or near-copies of what is modelled.
- The branches for the other settings of TCP_NODELAY, RX_DDR_BYPASS, WINDOW_SCALE and STATISTICS_MODULE.
- retransmit_timer, probe_timer and close_timer: they may fire at any time, with the events they send.
- port_table, port_handler, event_engine, ARP, icmp_server and the applications; where their answers matter they are arbitrary.
- The SYN, SYN_ACK and RST branches of txEng_metaLoader, and its FIN branch for a FIN that is not behind a retransmission: they would only add easy members.
- rxEngEventMerger, txEventMerger and txAppStatusHandler; the pointer push behind a completed buffer write is an action of the environment that takes place once the data is stored.
- txTableHandler of the UDP pipeline: an easy member.
- The opening of a connection in tx_app_if writes SYN_SENT whatever the state was; SessionLocks models it as the code does, and the legal changes include it.
- SessionLocks.LegalRuns: starts from the table after power-up; the RFC 793 diagram is taken with this code's merged states (no LISTEN, CLOSE_WAIT within LAST_ACK).
- TxFidelity.Fidelity: a single read or write command that crosses the end of a session's buffer, as the code issues in odd sessions, wraps there as in the repository's software memory; a data mover with a flat memory would go on into the next session's buffer.
- TxFidelity.ByteSent: an empty write leaves the buffer alone; the memory executes each write and each read in one step.
- WireRx.PayloadExactly: leaves out the data offset 13, whose byte offset is 0 and for which the code slices with a bound of -1.
- TxWindow.WindowConservation: covers a session from its initialisation up to its FIN, and supposes acceptable acknowledgements on FIN-ACK segments.
- RxWindow.NeverOvertaken: supposes that the application reads only what it was notified of and that FIN segments carry no payload; the code checks neither.
- DropPipeline.ForwardedExactly: the metadata and the payload words of a segment arrive in one step, and the three table replies to the state machine as one; rxParseTcpOptions, which passes all metadata on in order, is not among the stages; all segments are well-formed, a condition that is exact (DropPipeline.ConditionExactly).
- DropWire.HarmlessExactly: leaves out the data offset 13, like WireRx.PayloadExactly.
- TxOverrun.OverrunDiffers: starts in a session whose congestion window has grown to its limit.
- TcpChecksumAxis.RunDelivers: starts after the reset, before a word was offered.
- TransmittedChecksum.TransmittedVerifies: is about one packet through each unit since its reset; that packets do not influence each other is TcpChecksumAxis.RunChecksums.
- FastRetransmit.ThirdDuplicateExactly: counts duplicates as the code tells them, by the acknowledgement number and an empty payload, not by an unchanged window (section 2 of RFC 5681); an accepted FIN does not end a row even if it acknowledges new data.
- TxAnnounced.AdmittedWithinAnnounced: the window the handshake left is not counted as announced by an ACK; the scale is the one the option parser hands on, at most 2, so a peer with a larger scale has announced more.
- TxAnnounced.AdmittedExactly: the same scale.
- TxDelivery.DeliveredAsWritten: the packets of one session in the order their payload is ready, which may differ from the order of their headers.
- AckDelay.AnsweredInTime: is about events with a session ID below MAX_SESSIONS; an RST event without one is not part of this model.
