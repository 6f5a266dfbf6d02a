/** The TCP state machine of the RX engine (rxEngTcpFSM).
    The specification is written per output stream; the class runs the code's own branches and is
    proved to write exactly what the specification says to each stream. */
module TcpFsm {
  import opened ToeTypes

  datatype SegmentMeta = SegmentMeta(
    id: SessionId, seqNumb: Seq32, ackNumb: Seq32, winSize: Word16, recvWindowScale: Bits4,
    length: Word16, ack: bool, syn: bool, fin: bool, rst: bool)

  datatype RxSarEntry = RxSarEntry(recvd: Seq32, appd: Win18, rxWinShift: Bits4)

  datatype TxSarReply = TxSarReply(
    prevAck: Seq32, nextByte: Seq32, count: Bits2, fastRetransmitted: bool, txWinShift: Bits4,
    congWindow: Win18, slowstartThreshold: Win18)

  datatype RxSarReq =
    | ReadRecvd(id: SessionId)
    | WriteRecvd(id: SessionId, recvd: Seq32)
    | InitRecvd(id: SessionId, recvd: Seq32, rxWinShift: Bits4)

  datatype TxSarReq =
    | ReadTx(id: SessionId)
    | WriteTx(id: SessionId, ackd: Seq32, recvWindow: Word16, congWindow: Win18, count: Bits2,
              fastRetransmitted: bool, shiftWrite: bool, txWinShift: Bits4)

  datatype RxEvent =
    | SynAckEvent(id: SessionId, rtCount: nat)
    | AckEvent(id: SessionId)
    | AckNoDelayEvent(id: SessionId)
    | FinEvent(id: SessionId)
    | RtEvent(id: SessionId)
    | RstEvent(id: SessionId, ackNumb: Seq32)

  datatype Notification = Notification(id: SessionId, length: Word16, closed: bool)
  datatype OpenStatus = OpenStatus(id: SessionId, success: bool)
  datatype ClearTimer = ClearTimer(id: SessionId, stop: bool)

  datatype FsmState = Load | Transition

  /** The selection signal of the code: bit 0 ACK, bit 1 SYN, bit 2 FIN, bit 3 RST. */
  function ControlBits(m: SegmentMeta): nat {
    (if m.ack then 1 else 0) + (if m.syn then 2 else 0) + (if m.fin then 4 else 0) + (if m.rst then 8 else 0)
  }

  predicate IsAck(m: SegmentMeta) { m.ack && !m.syn && !m.fin && !m.rst }
  predicate IsSyn(m: SegmentMeta) { !m.ack && m.syn && !m.fin && !m.rst }
  predicate IsSynAck(m: SegmentMeta) { m.ack && m.syn && !m.fin && !m.rst }
  predicate IsFinAck(m: SegmentMeta) { m.ack && !m.syn && m.fin && !m.rst }

  /** The states in which an ACK segment is processed rather than answered with RST. */
  predicate AckProcessed(st: SessionState) {
    st.Established? || st.SynReceived? || st.FinWait1? || st.Closing? || st.LastAck?
  }

  predicate FinPermitted(st: SessionState) { st.Established? || st.FinWait1? || st.FinWait2? }

  /** Free space of the receive buffer as the FSM computes it, modulo 2^WINDOW_BITS. */
  function FreeSpace(rx: RxSarEntry): Win18 { Mod18(rx.appd - Mod18(rx.recvd) - 1) }

  predicate DataAccepted(m: SegmentMeta, st: SessionState, rx: RxSarEntry) {
    IsAck(m) && AckProcessed(st) && m.length != 0 && m.seqNumb == rx.recvd && FreeSpace(rx) > m.length
  }

  predicate FinAccepted(m: SegmentMeta, st: SessionState, rx: RxSarEntry) {
    IsFinAck(m) && FinPermitted(st) && rx.recvd == m.seqNumb
  }

  predicate DuplicateAck(m: SegmentMeta, tx: TxSarReply) {
    m.ackNumb == tx.prevAck && tx.prevAck != tx.nextByte
  }

  /** The ACK test of the code, with its explicit wrap-around case. */
  predicate AckInWindow(ack: Seq32, tx: TxSarReply) {
    (tx.prevAck <= ack <= tx.nextByte) || ((tx.prevAck <= ack || ack <= tx.nextByte) && tx.nextByte < tx.prevAck)
  }

  /** SND.UNA =< SEG.ACK =< SND.NXT of RFC 793 section 3.3, on the circle of sequence numbers. */
  lemma {:induction false} AckInWindowIsModularInterval(ack: Seq32, tx: TxSarReply)
    ensures AckInWindow(ack, tx) <==> Mod32(ack - tx.prevAck) <= Mod32(tx.nextByte - tx.prevAck)
  {
    assert Mod32(ack - tx.prevAck) == if ack >= tx.prevAck then ack - tx.prevAck else ack - tx.prevAck + SEQ_SPACE;
    assert Mod32(tx.nextByte - tx.prevAck)
        == if tx.nextByte >= tx.prevAck then tx.nextByte - tx.prevAck else tx.nextByte - tx.prevAck + SEQ_SPACE;
  }

  // ----- congestion control counters after an ACK -----

  function CountAfterAck(m: SegmentMeta, tx: TxSarReply): Bits2 {
    if DuplicateAck(m, tx) then (if m.length == 0 then (tx.count + 1) % 4 else tx.count) else 0
  }

  predicate FastAfterAck(m: SegmentMeta, tx: TxSarReply) { DuplicateAck(m, tx) && tx.fastRetransmitted }

  function CongAfterAck(m: SegmentMeta, tx: TxSarReply): Win18 {
    if DuplicateAck(m, tx) then tx.congWindow
    else if tx.congWindow <= tx.slowstartThreshold - MSS then tx.congWindow + MSS
    else if tx.congWindow <= CONGESTION_WINDOW_MAX then tx.congWindow + 1
    else tx.congWindow
  }

  predicate FastRetransmit(m: SegmentMeta, tx: TxSarReply) { CountAfterAck(m, tx) == 3 && !FastAfterAck(m, tx) }

  // ----- one function per output stream -----

  /** The state written back for a segment m read in state st. */
  function NextState(m: SegmentMeta, st: SessionState, rx: RxSarEntry, tx: TxSarReply): SessionState {
    if IsAck(m) then
      if m.ackNumb != tx.nextByte then st
      else (match st case SynReceived => Established case Closing => TimeWait case LastAck => Closed case _ => st)
    else if IsSyn(m) then
      if st.Closed? || st.SynSent? then SynReceived
      else if st.SynReceived? && Mod32(m.seqNumb + 1) != rx.recvd then Closed
      else st
    else if IsSynAck(m) then
      if !st.SynSent? then st else if m.ackNumb == tx.nextByte then Established else Closed
    else if IsFinAck(m) then
      if !FinAccepted(m, st, rx) then st
      else if st.Established? then LastAck
      else if m.ackNumb == tx.nextByte then TimeWait
      else Closing
    else if m.rst && (if st.SynSent? then m.ackNumb == tx.nextByte else m.seqNumb == rx.recvd) then Closed
    else st
  }

  /** Read by target: exactly which segments bring a session into each state. */
  lemma {:induction false} EnteredStates(m: SegmentMeta, st: SessionState, rx: RxSarEntry, tx: TxSarReply)
    ensures NextState(m, st, rx, tx) != st ==>
              var to := NextState(m, st, rx, tx);
              to.Closed? || to.SynReceived? || to.Established? || to.LastAck? || to.Closing? || to.TimeWait?
    ensures !st.Established? ==>
              (NextState(m, st, rx, tx).Established? <==>
               m.ackNumb == tx.nextByte && ((st.SynSent? && IsSynAck(m)) || (st.SynReceived? && IsAck(m))))
    ensures !st.SynReceived? ==>
              (NextState(m, st, rx, tx).SynReceived? <==> IsSyn(m) && (st.Closed? || st.SynSent?))
    ensures !st.LastAck? ==>
              (NextState(m, st, rx, tx).LastAck? <==> FinAccepted(m, st, rx) && st.Established?)
    ensures !st.TimeWait? ==>
              (NextState(m, st, rx, tx).TimeWait? <==>
               m.ackNumb == tx.nextByte
               && ((st.Closing? && IsAck(m)) || (FinAccepted(m, st, rx) && !st.Established?)))
    ensures !st.Closing? ==>
              (NextState(m, st, rx, tx).Closing? <==>
               m.ackNumb != tx.nextByte && FinAccepted(m, st, rx) && !st.Established?)
    ensures !st.Closed? ==>
              (NextState(m, st, rx, tx).Closed? <==>
               || (st.LastAck? && IsAck(m) && m.ackNumb == tx.nextByte)
               || (st.SynReceived? && IsSyn(m) && Mod32(m.seqNumb + 1) != rx.recvd)
               || (st.SynSent? && IsSynAck(m) && m.ackNumb != tx.nextByte)
               || (st.SynSent? && m.rst && m.ackNumb == tx.nextByte)
               || (!st.SynSent? && m.rst && m.seqNumb == rx.recvd))
  {
    assert IsAck(m) || IsSyn(m) || IsSynAck(m) || IsFinAck(m) ==> !m.rst;
  }

  function WinShift(m: SegmentMeta): Bits4 { if m.recvWindowScale == 0 then 0 else WINDOW_SCALE_BITS }

  function RxSarWrites(m: SegmentMeta, st: SessionState, rx: RxSarEntry, tx: TxSarReply): seq<RxSarReq> {
    if DataAccepted(m, st, rx) then [WriteRecvd(m.id, Mod32(m.seqNumb + m.length))]
    else if FinAccepted(m, st, rx) then [WriteRecvd(m.id, Mod32(m.seqNumb + m.length + 1))]
    else if (IsSyn(m) && (st.Closed? || st.SynSent?)) || (IsSynAck(m) && st.SynSent? && m.ackNumb == tx.nextByte)
    then [InitRecvd(m.id, Mod32(m.seqNumb + 1), WinShift(m))]
    else []
  }

  function TxSarWrites(m: SegmentMeta, st: SessionState, rx: RxSarEntry, tx: TxSarReply, junkShift: Bits4): seq<TxSarReq> {
    if IsAck(m) && AckProcessed(st) && AckInWindow(m.ackNumb, tx) then
      [WriteTx(m.id, m.ackNumb, m.winSize, CongAfterAck(m, tx), CountAfterAck(m, tx),
               CountAfterAck(m, tx) == 3 || FastAfterAck(m, tx), false, tx.txWinShift)]
    else if FinAccepted(m, st, rx) then
      [WriteTx(m.id, m.ackNumb, m.winSize, tx.congWindow, tx.count, tx.fastRetransmitted, false, junkShift)]
    else if IsSyn(m) && (st.Closed? || st.SynSent?) then
      [WriteTx(m.id, 0, m.winSize, tx.congWindow, 0, false, true, WinShift(m))]
    else if IsSynAck(m) && st.SynSent? && m.ackNumb == tx.nextByte then
      [WriteTx(m.id, m.ackNumb, m.winSize, tx.congWindow, 0, false, true, m.recvWindowScale)]
    else []
  }

  function Events(m: SegmentMeta, st: SessionState, rx: RxSarEntry, tx: TxSarReply): seq<RxEvent> {
    if IsAck(m) then
      if !AckProcessed(st) then [RstEvent(m.id, Mod32(m.seqNumb + m.length))]
      else if FastRetransmit(m, tx) then [RtEvent(m.id)]
      else if m.length != 0 then [AckEvent(m.id)]
      else []
    else if IsSyn(m) then
      if st.Closed? || st.SynSent? then [SynAckEvent(m.id, 0)]
      else if !st.SynReceived? then [AckNoDelayEvent(m.id)]
      else if Mod32(m.seqNumb + 1) == rx.recvd then [SynAckEvent(m.id, 1)]
      else [RstEvent(m.id, Mod32(m.seqNumb + 1))]
    else if IsSynAck(m) then
      if st.SynSent? && m.ackNumb != tx.nextByte then [RstEvent(m.id, Mod32(m.seqNumb + m.length + 1))]
      else [AckNoDelayEvent(m.id)]
    else if IsFinAck(m) then
      if FinAccepted(m, st, rx) && st.Established? then [FinEvent(m.id)] else [AckEvent(m.id)]
    else []
  }

  function Notifications(m: SegmentMeta, st: SessionState, rx: RxSarEntry): seq<Notification> {
    if DataAccepted(m, st, rx) then [Notification(m.id, m.length, false)]
    else if FinAccepted(m, st, rx) then
      if m.length != 0 || st.Established? then [Notification(m.id, m.length, true)] else []
    else if m.rst && !IsAck(m) && !st.SynSent? && m.seqNumb == rx.recvd then [Notification(m.id, 0, true)]
    else []
  }

  function Drops(m: SegmentMeta, st: SessionState, rx: RxSarEntry): seq<bool> {
    if m.length == 0 then []
    else if IsAck(m) then [!DataAccepted(m, st, rx)]
    else if IsFinAck(m) then [!FinAccepted(m, st, rx)]
    else []
  }

  function OpenStatuses(m: SegmentMeta, st: SessionState, tx: TxSarReply): seq<OpenStatus> {
    if st.SynSent? && m.ackNumb == tx.nextByte && (IsSynAck(m) || m.rst) then [OpenStatus(m.id, !m.rst)] else []
  }

  function ClearTimers(m: SegmentMeta, st: SessionState, rx: RxSarEntry, tx: TxSarReply): seq<ClearTimer> {
    if IsAck(m) || IsSynAck(m) || IsFinAck(m) then [ClearTimer(m.id, m.ackNumb == tx.nextByte)]
    else if m.rst && (if st.SynSent? then m.ackNumb == tx.nextByte else m.seqNumb == rx.recvd) then [ClearTimer(m.id, true)]
    else []
  }

  function ClearProbes(m: SegmentMeta, st: SessionState, rx: RxSarEntry, tx: TxSarReply): seq<SessionId> {
    if (IsAck(m) && AckProcessed(st) && !DuplicateAck(m, tx)) || FinAccepted(m, st, rx) then [m.id] else []
  }

  function CloseTimers(m: SegmentMeta, st: SessionState, rx: RxSarEntry, tx: TxSarReply): seq<SessionId> {
    if !st.TimeWait? && NextState(m, st, rx, tx).TimeWait? then [m.id] else []
  }

  function NewClients(m: SegmentMeta, st: SessionState, tx: TxSarReply): seq<SessionId> {
    if IsAck(m) && st.SynReceived? && m.ackNumb == tx.nextByte then [m.id] else []
  }

  // ----- one segment: the branches of the code -----

  /** Everything one transition writes, stream by stream. */
  datatype Writes = Writes(
    state: seq<StateQuery>, rxSar: seq<RxSarReq>, txSar: seq<TxSarReq>, clearTimer: seq<ClearTimer>,
    clearProbe: seq<SessionId>, closeTimer: seq<SessionId>, openStatus: seq<OpenStatus>, events: seq<RxEvent>,
    drops: seq<bool>, notifications: seq<Notification>, newClients: seq<SessionId>)

  /** The specification of a transition: the outputs of a segment m, given the three replies.
      junkShift stands for tx_win_shift, which the FIN branch reads without assigning it. */
  function Respond(m: SegmentMeta, st: SessionState, rx: RxSarEntry, tx: TxSarReply, junkShift: Bits4): Writes {
    Writes([WriteState(m.id, NextState(m, st, rx, tx))], RxSarWrites(m, st, rx, tx),
           TxSarWrites(m, st, rx, tx, junkShift), ClearTimers(m, st, rx, tx), ClearProbes(m, st, rx, tx),
           CloseTimers(m, st, rx, tx), OpenStatuses(m, st, tx), Events(m, st, rx, tx), Drops(m, st, rx),
           Notifications(m, st, rx), NewClients(m, st, tx))
  }

  /** The counters of a processed ACK: duplicate count, fast retransmit flag, congestion window. */
  function TxAfterAck(m: SegmentMeta, tx: TxSarReply): TxSarReply {
    tx.(count := CountAfterAck(m, tx), fastRetransmitted := FastAfterAck(m, tx), congWindow := CongAfterAck(m, tx))
  }

  method CountAck(m: SegmentMeta, txSar0: TxSarReply) returns (txSar: TxSarReply, probe: seq<SessionId>)
    ensures txSar == TxAfterAck(m, txSar0)
    ensures probe == if DuplicateAck(m, txSar0) then [] else [m.id]
  {
    txSar, probe := txSar0, [];
    if m.ackNumb == txSar.prevAck && txSar.prevAck != txSar.nextByte {
      if m.length == 0 {
        txSar := txSar.(count := (txSar.count + 1) % 4);
      }
    } else {
      probe := [m.id];
      if txSar.congWindow <= txSar.slowstartThreshold - MSS {
        txSar := txSar.(congWindow := txSar.congWindow + MSS);
      } else if txSar.congWindow <= CONGESTION_WINDOW_MAX {
        txSar := txSar.(congWindow := txSar.congWindow + 1);
      }
      txSar := txSar.(count := 0, fastRetransmitted := false);
    }
  }

  method AcceptPayload(m: SegmentMeta, tcpState: SessionState, rxSar: RxSarEntry)
    returns (rxReq: seq<RxSarReq>, notes: seq<Notification>, drops: seq<bool>)
    requires IsAck(m) && AckProcessed(tcpState)
    ensures rxReq == if DataAccepted(m, tcpState, rxSar) then [WriteRecvd(m.id, Mod32(m.seqNumb + m.length))] else []
    ensures notes == Notifications(m, tcpState, rxSar) && drops == Drops(m, tcpState, rxSar)
  {
    rxReq, notes, drops := [], [], [];
    if m.length != 0 {
      var newRecvd := Mod32(m.seqNumb + m.length);
      var freeSpace := Mod18(rxSar.appd - Mod18(rxSar.recvd) - 1);
      if m.seqNumb == rxSar.recvd && freeSpace > m.length {
        rxReq := [WriteRecvd(m.id, newRecvd)];
        notes := [Notification(m.id, m.length, false)];
        drops := [false];
      } else {
        drops := [true];
      }
    }
  }

  method AckTxSar(m: SegmentMeta, tcpState: SessionState, rxSar: RxSarEntry, ghost txSar0: TxSarReply, txSar: TxSarReply,
                  ghost junkShift: Bits4)
    returns (txReq: seq<TxSarReq>)
    requires IsAck(m) && AckProcessed(tcpState) && txSar == TxAfterAck(m, txSar0)
    ensures txReq == TxSarWrites(m, tcpState, rxSar, txSar0, junkShift)
  {
    txReq := [];
    if (txSar.prevAck <= m.ackNumb && m.ackNumb <= txSar.nextByte)
       || ((txSar.prevAck <= m.ackNumb || m.ackNumb <= txSar.nextByte) && txSar.nextByte < txSar.prevAck) {
      txReq := [WriteTx(m.id, m.ackNumb, m.winSize, txSar.congWindow, txSar.count,
                        txSar.count == 3 || txSar.fastRetransmitted, false, txSar.txWinShift)];
    }
  }

  method AckState(m: SegmentMeta, tcpState: SessionState, rxSar: RxSarEntry, txSar: TxSarReply)
    returns (state: seq<StateQuery>, close: seq<SessionId>, clients: seq<SessionId>)
    requires IsAck(m) && AckProcessed(tcpState)
    ensures state == [WriteState(m.id, NextState(m, tcpState, rxSar, txSar))]
    ensures close == CloseTimers(m, tcpState, rxSar, txSar) && clients == NewClients(m, tcpState, txSar)
  {
    close, clients := [], [];
    if m.ackNumb == txSar.nextByte {
      match tcpState
      case SynReceived =>
        state := [WriteState(m.id, Established)];
        clients := [m.id];
      case Closing =>
        state := [WriteState(m.id, TimeWait)];
        close := [m.id];
      case LastAck =>
        state := [WriteState(m.id, Closed)];
      case _ =>
        state := [WriteState(m.id, tcpState)];
    } else {
      state := [WriteState(m.id, tcpState)];
    }
  }

  method OnAck(m: SegmentMeta, tcpState: SessionState, rxSar: RxSarEntry, txSar0: TxSarReply, junkShift: Bits4)
    returns (w: Writes)
    requires IsAck(m)
    ensures w == Respond(m, tcpState, rxSar, txSar0, junkShift)
  {
    var state, rxReq, txReq, probe, close, events, drops, notes, clients := [], [], [], [], [], [], [], [], [];
    var timer := [ClearTimer(m.id, m.ackNumb == txSar0.nextByte)];
    if AckProcessed(tcpState) {
      var txSar: TxSarReply;
      txSar, probe := CountAck(m, txSar0);
      txReq := AckTxSar(m, tcpState, rxSar, txSar0, txSar, junkShift);
      rxReq, notes, drops := AcceptPayload(m, tcpState, rxSar);
      if txSar.count == 3 && !txSar.fastRetransmitted {
        events := [RtEvent(m.id)];
      } else if m.length != 0 {
        events := [AckEvent(m.id)];
      }
      state, close, clients := AckState(m, tcpState, rxSar, txSar);
    } else {
      events := [RstEvent(m.id, Mod32(m.seqNumb + m.length))];
      if m.length != 0 {
        drops := [true];
      }
      state := [WriteState(m.id, tcpState)];
    }
    w := Writes(state, rxReq, txReq, timer, probe, close, [], events, drops, notes, clients);
  }

  method OnSyn(m: SegmentMeta, tcpState: SessionState, rxSar: RxSarEntry, txSar: TxSarReply, junkShift: Bits4)
    returns (w: Writes)
    requires IsSyn(m)
    ensures w == Respond(m, tcpState, rxSar, txSar, junkShift)
  {
    var state, rxReq, txReq, events := [], [], [], [];
    if tcpState.Closed? || tcpState.SynSent? {
      var rxWinShift: Bits4 := if m.recvWindowScale == 0 then 0 else WINDOW_SCALE_BITS;
      rxReq := [InitRecvd(m.id, Mod32(m.seqNumb + 1), rxWinShift)];
      txReq := [WriteTx(m.id, 0, m.winSize, txSar.congWindow, 0, false, true, rxWinShift)];
      events := [SynAckEvent(m.id, 0)];
      state := [WriteState(m.id, SynReceived)];
    } else if tcpState.SynReceived? {
      if Mod32(m.seqNumb + 1) == rxSar.recvd {
        events := [SynAckEvent(m.id, 1)];
        state := [WriteState(m.id, tcpState)];
      } else {
        events := [RstEvent(m.id, Mod32(m.seqNumb + 1))];
        state := [WriteState(m.id, Closed)];
      }
    } else {
      events := [AckNoDelayEvent(m.id)];
      state := [WriteState(m.id, tcpState)];
    }
    w := Writes(state, rxReq, txReq, [], [], [], [], events, [], [], []);
  }

  method OnSynAck(m: SegmentMeta, tcpState: SessionState, rxSar: RxSarEntry, txSar: TxSarReply, junkShift: Bits4)
    returns (w: Writes)
    requires IsSynAck(m)
    ensures w == Respond(m, tcpState, rxSar, txSar, junkShift)
  {
    var state, rxReq, txReq, events, open := [], [], [], [], [];
    var timer := [ClearTimer(m.id, m.ackNumb == txSar.nextByte)];
    if tcpState.SynSent? {
      if m.ackNumb == txSar.nextByte {
        events := [AckNoDelayEvent(m.id)];
        state := [WriteState(m.id, Established)];
        var rxWinShift: Bits4 := if m.recvWindowScale == 0 then 0 else WINDOW_SCALE_BITS;
        var txWinShift := m.recvWindowScale;
        rxReq := [InitRecvd(m.id, Mod32(m.seqNumb + 1), rxWinShift)];
        txReq := [WriteTx(m.id, m.ackNumb, m.winSize, txSar.congWindow, 0, false, true, txWinShift)];
        open := [OpenStatus(m.id, true)];
      } else {
        events := [RstEvent(m.id, Mod32(m.seqNumb + m.length + 1))];
        state := [WriteState(m.id, Closed)];
      }
    } else {
      events := [AckNoDelayEvent(m.id)];
      state := [WriteState(m.id, tcpState)];
    }
    w := Writes(state, rxReq, txReq, timer, [], [], open, events, [], [], []);
  }

  method OnFinAck(m: SegmentMeta, tcpState: SessionState, rxSar: RxSarEntry, txSar: TxSarReply, junkShift: Bits4)
    returns (w: Writes)
    requires IsFinAck(m)
    ensures w == Respond(m, tcpState, rxSar, txSar, junkShift)
  {
    var state, rxReq, txReq, probe, close, events, drops, notes := [], [], [], [], [], [], [], [];
    var timer := [ClearTimer(m.id, m.ackNumb == txSar.nextByte)];
    if (tcpState.Established? || tcpState.FinWait1? || tcpState.FinWait2?) && rxSar.recvd == m.seqNumb {
      txReq := [WriteTx(m.id, m.ackNumb, m.winSize, txSar.congWindow, txSar.count,
                        txSar.fastRetransmitted, false, junkShift)];
      rxReq := [WriteRecvd(m.id, Mod32(m.seqNumb + m.length + 1))];
      probe := [m.id];
      if m.length != 0 {
        notes := [Notification(m.id, m.length, true)];
        drops := [false];
      } else if tcpState.Established? {
        notes := [Notification(m.id, 0, true)];
      }
      if tcpState.Established? {
        events := [FinEvent(m.id)];
        state := [WriteState(m.id, LastAck)];
      } else {
        if m.ackNumb == txSar.nextByte {
          state := [WriteState(m.id, TimeWait)];
          close := [m.id];
        } else {
          state := [WriteState(m.id, Closing)];
        }
        events := [AckEvent(m.id)];
      }
    } else {
      events := [AckEvent(m.id)];
      state := [WriteState(m.id, tcpState)];
      if m.length != 0 {
        drops := [true];
      }
    }
    w := Writes(state, rxReq, txReq, timer, probe, close, [], events, drops, notes, []);
  }

  method OnOther(m: SegmentMeta, tcpState: SessionState, rxSar: RxSarEntry, txSar: TxSarReply, junkShift: Bits4)
    returns (w: Writes)
    requires !IsAck(m) && !IsSyn(m) && !IsSynAck(m) && !IsFinAck(m)
    ensures w == Respond(m, tcpState, rxSar, txSar, junkShift)
  {
    var state, timer, notes, open := [], [], [], [];
    if m.rst {
      if tcpState.SynSent? {
        if m.ackNumb == txSar.nextByte {
          open := [OpenStatus(m.id, false)];
          state := [WriteState(m.id, Closed)];
          timer := [ClearTimer(m.id, true)];
        } else {
          state := [WriteState(m.id, tcpState)];
        }
      } else {
        if m.seqNumb == rxSar.recvd {
          notes := [Notification(m.id, 0, true)];
          state := [WriteState(m.id, Closed)];
          timer := [ClearTimer(m.id, true)];
        } else {
          state := [WriteState(m.id, tcpState)];
        }
      }
    } else {
      state := [WriteState(m.id, tcpState)];
    }
    w := Writes(state, [], [], timer, [], [], open, [], [], notes, []);
  }

  lemma {:induction false} ControlBitsSelect(m: SegmentMeta)
    ensures IsAck(m) <==> ControlBits(m) == 1
    ensures IsSyn(m) <==> ControlBits(m) == 2
    ensures IsSynAck(m) <==> ControlBits(m) == 3
    ensures IsFinAck(m) <==> ControlBits(m) == 5
  {
  }

  method Branch(controlBits: nat, m: SegmentMeta, tcpState: SessionState, rxSar: RxSarEntry, txSar: TxSarReply,
                junkShift: Bits4)
    returns (w: Writes)
    requires controlBits == ControlBits(m)
    ensures w == Respond(m, tcpState, rxSar, txSar, junkShift)
  {
    ControlBitsSelect(m);
    if controlBits == 1 {
      w := OnAck(m, tcpState, rxSar, txSar, junkShift);
    } else if controlBits == 2 {
      w := OnSyn(m, tcpState, rxSar, txSar, junkShift);
    } else if controlBits == 3 {
      w := OnSynAck(m, tcpState, rxSar, txSar, junkShift);
    } else if controlBits == 5 {
      w := OnFinAck(m, tcpState, rxSar, txSar, junkShift);
    } else {
      w := OnOther(m, tcpState, rxSar, txSar, junkShift);
    }
  }

  /** Static variables and input streams of rxEngTcpFSM; the output streams are grouped in one record. */
  datatype FsmView = FsmView(
    fsmState: FsmState, meta: SegmentMeta, txSarRequest: bool,
    metaIn: seq<SegmentMeta>, stateRsp: seq<SessionState>, rxSarRsp: seq<RxSarEntry>, txSarRsp: seq<TxSarReply>,
    out: Writes)

  function Append(a: Writes, b: Writes): Writes {
    Writes(a.state + b.state, a.rxSar + b.rxSar, a.txSar + b.txSar, a.clearTimer + b.clearTimer,
           a.clearProbe + b.clearProbe, a.closeTimer + b.closeTimer, a.openStatus + b.openStatus,
           a.events + b.events, a.drops + b.drops, a.notifications + b.notifications, a.newClients + b.newClients)
  }

  predicate Ready(v: FsmView) {
    v.stateRsp != [] && v.rxSarRsp != [] && (v.txSarRequest ==> v.txSarRsp != [])
  }

  function Queries(m: SegmentMeta): Writes {
    Writes([ReadState(m.id)], [ReadRecvd(m.id)], if m.ack then [ReadTx(m.id)] else [], [], [], [], [], [], [], [], [])
  }

  /** One step. junkTx stands for the local variable txSar when no reply was requested. */
  function FsmStep(v: FsmView, junkTx: TxSarReply, junkShift: Bits4): FsmView {
    match v.fsmState
    case Load =>
      if v.metaIn == [] then v
      else
        v.(fsmState := Transition, meta := v.metaIn[0], metaIn := v.metaIn[1..],
           txSarRequest := v.txSarRequest || v.metaIn[0].ack, out := Append(v.out, Queries(v.metaIn[0])))
    case Transition =>
      if !Ready(v) then v
      else
        v.(fsmState := Load, txSarRequest := false, stateRsp := v.stateRsp[1..], rxSarRsp := v.rxSarRsp[1..],
           txSarRsp := if v.txSarRequest then v.txSarRsp[1..] else v.txSarRsp,
           out := Append(v.out, Respond(v.meta, v.stateRsp[0], v.rxSarRsp[0],
                                        if v.txSarRequest then v.txSarRsp[0] else junkTx, junkShift)))
  }

  class RxEngTcpFsm {
    var fsmState: FsmState
    var meta: SegmentMeta
    var txSarRequest: bool
    var controlBits: nat
    var metaIn: seq<SegmentMeta>
    var stateRsp: seq<SessionState>
    var rxSarRsp: seq<RxSarEntry>
    var txSarRsp: seq<TxSarReply>
    var out: Writes

    ghost function View(): FsmView reads this {
      FsmView(fsmState, meta, txSarRequest, metaIn, stateRsp, rxSarRsp, txSarRsp, out)
    }

    ghost predicate Valid() reads this { fsmState.Transition? ==> controlBits == ControlBits(meta) }

    method Step(junkTx: TxSarReply, junkShift: Bits4)
      requires Valid()
      modifies this
      ensures Valid() && View() == FsmStep(old(View()), junkTx, junkShift)
    {
      match fsmState
      case Load =>
        if metaIn != [] {
          meta, metaIn := metaIn[0], metaIn[1..];
          txSarRequest := txSarRequest || meta.ack;
          controlBits := ControlBits(meta);
          out := Append(out, Queries(meta));
          fsmState := Transition;
        }
      case Transition =>
        if stateRsp != [] && rxSarRsp != [] && !(txSarRequest && txSarRsp == []) {
          var txSar := junkTx;
          if txSarRequest {
            txSar, txSarRsp := txSarRsp[0], txSarRsp[1..];
          }
          txSarRequest := false;
          var tcpState, rxSar := stateRsp[0], rxSarRsp[0];
          stateRsp, rxSarRsp := stateRsp[1..], rxSarRsp[1..];
          fsmState := Load;
          var w := Branch(controlBits, meta, tcpState, rxSar, txSar, junkShift);
          out := Append(out, w);
        }
    }
  }
}
