/** What the RX engine's answer to a segment means for the other processes, read from the outputs: who is
    acknowledged, who is told, and over runs of acknowledgements when a fast retransmission is asked for. */
module SegmentEvents {
  import opened ToeTypes
  import opened TcpFsm

  /** What the counters of the table keep (CountersSane): after the third duplicate the flag is set. */
  predicate Sane(tx: TxSarReply) { tx.count == 3 ==> tx.fastRetransmitted }

  /** The third duplicate in a row, as the counter read says: no payload, and nothing was asked for yet. */
  predicate ThirdDuplicate(m: SegmentMeta, tx: TxSarReply) {
    m.ackNumb == tx.prevAck && tx.prevAck != tx.nextByte && m.length == 0 && tx.count == 2 && !tx.fastRetransmitted
  }

  // ----- acknowledgements -----

  /** Whatever is received is acknowledged: payload that was stored or refused, and every FIN, raise exactly one
      event, an ACK or, for the FIN that closes an established session, the own FIN, which carries an ACK. */
  lemma {:induction false} ReceivedIsAcknowledged(m: SegmentMeta, st: SessionState, rx: RxSarEntry, tx: TxSarReply, junk: Bits4)
    requires Sane(tx)
    ensures DataAccepted(m, st, rx) ==> Respond(m, st, rx, tx, junk).events == [AckEvent(m.id)]
    ensures IsAck(m) && m.length != 0 && !st.Closed? && !st.SynSent? && !st.FinWait2? && !st.TimeWait? ==>
              Respond(m, st, rx, tx, junk).events == [AckEvent(m.id)]
    ensures FinAccepted(m, st, rx) ==>
              Respond(m, st, rx, tx, junk).events == [if st.Established? then FinEvent(m.id) else AckEvent(m.id)]
    ensures IsFinAck(m) && !FinAccepted(m, st, rx) ==> Respond(m, st, rx, tx, junk).events == [AckEvent(m.id)]
  {
  }

  /** Without payload an acknowledgement is never acknowledged, so two ends do not answer each other forever:
      it raises the third duplicate's retransmission or nothing. */
  lemma {:induction false} AcksAreNotAcknowledged(m: SegmentMeta, st: SessionState, rx: RxSarEntry, tx: TxSarReply, junk: Bits4)
    requires Sane(tx) && IsAck(m) && AckProcessed(st) && m.length == 0
    ensures Respond(m, st, rx, tx, junk).events == if ThirdDuplicate(m, tx) then [RtEvent(m.id)] else []
  {
  }

  /** Read by event: exactly which segments raise each one, and never two at once. */
  lemma {:induction false} EventsRaised(m: SegmentMeta, st: SessionState, rx: RxSarEntry, tx: TxSarReply, junk: Bits4)
    requires Sane(tx)
    ensures var e := Respond(m, st, rx, tx, junk).events;
            && |e| <= 1 && (e != [] ==> e[0].id == m.id)
            && (e != [] && e[0].RtEvent? <==> IsAck(m) && AckProcessed(st) && ThirdDuplicate(m, tx))
            && (e != [] && e[0].FinEvent? <==> FinAccepted(m, st, rx) && st.Established?)
            && (e != [] && e[0].AckEvent? <==>
                (IsAck(m) && AckProcessed(st) && m.length != 0)
                || (IsFinAck(m) && !(FinAccepted(m, st, rx) && st.Established?)))
    ensures var e := Respond(m, st, rx, tx, junk).events;
            && (e != [] && e[0].SynAckEvent? <==>
                IsSyn(m) && (st.Closed? || st.SynSent? || (st.SynReceived? && Mod32(m.seqNumb + 1) == rx.recvd)))
            && (e != [] && e[0].SynAckEvent? ==> e[0].rtCount == if st.SynReceived? then 1 else 0)
            && (e != [] && e[0].AckNoDelayEvent? <==>
                (IsSyn(m) && !st.Closed? && !st.SynSent? && !st.SynReceived?)
                || (IsSynAck(m) && !(st.SynSent? && m.ackNumb != tx.nextByte)))
  {
  }

  /** Section 3.4 of RFC 793: a reset answers a segment that fits no connection, and acknowledges everything the
      segment occupies, its payload and a SYN. No reset answers a reset. */
  lemma {:induction false} ResetsRaised(m: SegmentMeta, st: SessionState, rx: RxSarEntry, tx: TxSarReply, junk: Bits4)
    requires Sane(tx)
    ensures var e := Respond(m, st, rx, tx, junk).events;
            && (e != [] && e[0].RstEvent? <==>
                (IsAck(m) && (st.Closed? || st.SynSent? || st.FinWait2? || st.TimeWait?))
                || (IsSyn(m) && st.SynReceived? && Mod32(m.seqNumb + 1) != rx.recvd)
                || (IsSynAck(m) && st.SynSent? && m.ackNumb != tx.nextByte))
            && (e != [] && e[0].RstEvent? ==>
                !m.rst && (m.syn && !m.ack ==> e[0].ackNumb == Mod32(m.seqNumb + 1))
                && (m.ack ==> e[0].ackNumb == Mod32(m.seqNumb + m.length + if m.syn then 1 else 0)))
  {
  }

  // ----- the application and the timers -----

  /** The outcome of an active open is told exactly once: success with the step to ESTABLISHED, failure with the
      reset that closes it. The third way out, a SYN-ACK with a wrong acknowledgement, closes the session and
      tells nobody. */
  lemma {:induction false} OpensAreTold(m: SegmentMeta, st: SessionState, rx: RxSarEntry, tx: TxSarReply, junk: Bits4)
    ensures var w := Respond(m, st, rx, tx, junk);
            && |w.openStatus| <= 1 && (w.openStatus != [] ==> w.openStatus[0].id == m.id)
            && (w.openStatus != [] && w.openStatus[0].success <==> st.SynSent? && w.state == [WriteState(m.id, Established)])
            && (w.openStatus != [] && !w.openStatus[0].success <==>
                st.SynSent? && w.state == [WriteState(m.id, Closed)] && !IsSynAck(m))
  {
    EnteredStates(m, st, rx, tx);
  }

  /** A new client is announced exactly when a passive open is completed, and the close timer is started exactly
      when TIME_WAIT is entered. */
  lemma {:induction false} ClientsAndTimers(m: SegmentMeta, st: SessionState, rx: RxSarEntry, tx: TxSarReply, junk: Bits4)
    ensures var w := Respond(m, st, rx, tx, junk);
            && w.newClients == (if st.SynReceived? && w.state == [WriteState(m.id, Established)] then [m.id] else [])
            && w.closeTimer == (if !st.TimeWait? && w.state == [WriteState(m.id, TimeWait)] then [m.id] else [])
  {
    EnteredStates(m, st, rx, tx);
  }

  /** The retransmit timer hears of every segment that carries an acknowledgement, and of a reset that closes the
      session; it is stopped exactly when nothing is left unacknowledged, or the session is reset. */
  lemma {:induction false} RetransmitTimer(m: SegmentMeta, st: SessionState, rx: RxSarEntry, tx: TxSarReply, junk: Bits4)
    ensures var w := Respond(m, st, rx, tx, junk);
            && |w.clearTimer| <= 1 && (w.clearTimer != [] ==> w.clearTimer[0].id == m.id)
            && (w.clearTimer != [] && w.clearTimer[0].stop <==>
                if IsAck(m) || IsSynAck(m) || IsFinAck(m) then m.ackNumb == tx.nextByte
                else m.rst && if st.SynSent? then m.ackNumb == tx.nextByte else m.seqNumb == rx.recvd)
            && (IsAck(m) || IsSynAck(m) || IsFinAck(m) ==> w.clearTimer != [])
            && (m.rst && !st.Closed? && w.state == [WriteState(m.id, Closed)] ==> w.clearTimer == [ClearTimer(m.id, true)])
            && (m.rst && w.clearTimer != [] ==> w.state == [WriteState(m.id, Closed)])
  {
    EnteredStates(m, st, rx, tx);
  }

  /** The application is told the length of exactly the payload that is stored, and of the end of the stream: by a
      FIN that closes an established session or carries payload, or by a reset. */
  lemma {:induction false} ApplicationIsTold(m: SegmentMeta, st: SessionState, rx: RxSarEntry, tx: TxSarReply, junk: Bits4)
    ensures var w := Respond(m, st, rx, tx, junk);
            && |w.notifications| <= 1 && (w.notifications != [] ==> w.notifications[0].id == m.id)
            && (w.notifications != [] && w.notifications[0].length != 0 <==> w.drops == [false])
            && (w.notifications != [] && w.notifications[0].length != 0 ==> w.notifications[0].length == m.length)
            && (w.notifications != [] && w.notifications[0].closed <==>
                || (FinAccepted(m, st, rx) && (m.length != 0 || w.state == [WriteState(m.id, LastAck)]))
                || (m.rst && !st.SynSent? && m.seqNumb == rx.recvd))
  {
    EnteredStates(m, st, rx, tx);
  }

  /** Exactly which payload is stored: it begins at the byte expected and comes on an ACK that ends strictly inside the free space, or on a
      FIN-ACK, whose payload is not measured; each in its states. */
  lemma {:induction false} PayloadStoredExactly(m: SegmentMeta, st: SessionState, rx: RxSarEntry, tx: TxSarReply, junk: Bits4)
    ensures Respond(m, st, rx, tx, junk).drops == [false]
            <==> m.length != 0 && m.seqNumb == rx.recvd && m.ack && !m.syn && !m.rst
                 && if m.fin then st.Established? || st.FinWait1? || st.FinWait2?
                    else m.length < FreeSpace(rx) && (st.Established? || st.SynReceived? || st.FinWait1? || st.Closing? || st.LastAck?)
    ensures Respond(m, st, rx, tx, junk).drops == [true]
            <==> m.length != 0 && m.ack && !m.syn && !m.rst && Respond(m, st, rx, tx, junk).drops != [false]
  {
  }

  /** Without any free space payload is stored if it comes with a FIN. */
  lemma {:induction false} FinOverfills(tx: TxSarReply, junk: Bits4)
    ensures var e := RxSarEntry(2001, 2002, 0);
            var m := SegmentMeta(0, 2001, 0, 100, 0, 10, true, false, true, false);
            FreeSpace(e) == 0 && Respond(m, Established, e, tx, junk).drops == [false]
  {
  }

  /** Where stored payload and the expected sequence number meet: the table is moved by exactly what was stored,
      and a probe timer is cleared by every acknowledgement that is not a duplicate and by an accepted FIN. */
  lemma {:induction false} StoredIsExpected(m: SegmentMeta, st: SessionState, rx: RxSarEntry, tx: TxSarReply, junk: Bits4)
    ensures var w := Respond(m, st, rx, tx, junk);
            && (w.drops == [false] ==> w.rxSar == [WriteRecvd(m.id, Mod32(rx.recvd + m.length + if m.fin then 1 else 0))])
            && (w.rxSar != [] && w.rxSar[0].WriteRecvd? ==> m.seqNumb == rx.recvd && (m.length != 0 || m.fin))
            && (w.rxSar != [] && w.rxSar[0].WriteRecvd? && m.length != 0 ==> w.drops == [false])
            && (w.rxSar != [] && w.rxSar[0].InitRecvd? <==>
                w.state != [WriteState(m.id, st)] && m.syn && !(w.state == [WriteState(m.id, Closed)]))
            && (w.clearProbe == if FinAccepted(m, st, rx) || (IsAck(m) && AckProcessed(st) && !DuplicateAck(m, tx))
                                then [m.id] else [])
  {
    EnteredStates(m, st, rx, tx);
  }

  // ----- congestion window -----

  /** The congestion window in an acknowledgement's write: unchanged by a duplicate; by a new one increased by an MSS below
      the slow-start threshold and by one byte above it, until it reaches its cap. */
  lemma {:induction false} CongestionWindow(m: SegmentMeta, st: SessionState, rx: RxSarEntry, tx: TxSarReply, junk: Bits4)
    requires IsAck(m) && AckProcessed(st) && AckInWindow(m.ackNumb, tx)
    ensures |Respond(m, st, rx, tx, junk).txSar| == 1 && Respond(m, st, rx, tx, junk).txSar[0].WriteTx?
    ensures var c := Respond(m, st, rx, tx, junk).txSar[0].congWindow;
            && (DuplicateAck(m, tx) ==> c == tx.congWindow)
            && (!DuplicateAck(m, tx) && tx.congWindow + MSS <= tx.slowstartThreshold ==> c == tx.congWindow + MSS)
            && (!DuplicateAck(m, tx) && tx.slowstartThreshold < tx.congWindow + MSS ==>
                  c == tx.congWindow + (if tx.congWindow <= CONGESTION_WINDOW_MAX then 1 else 0))
            && tx.congWindow <= c
            && (tx.congWindow < c ==> c <= tx.slowstartThreshold || c <= CONGESTION_WINDOW_MAX + 1)
  {
  }
}
