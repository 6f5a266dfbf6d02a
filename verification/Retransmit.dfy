/** The transmit meta loader of the TX engine (txEng_metaLoader): new data, retransmission and the FIN that follows it. */
module Retransmit {
  import opened ToeTypes
  import opened TxTables

  /** One data segment: sequence number, offset in the session's buffer, length. */
  datatype Segment = Segment(seqNumb: Seq32, offset: Win18, length: Word16)

  /** What is left of a retransmission: txSar_r.ackd, txSar_r.usedLength_rst and txSar_r.finSent. */
  datatype Rest = Rest(ackd: Seq32, left: Win18, finSent: bool)

  datatype Outcome = More(rest: Rest) | SendFin | Stop

  /** One RT or RT_CONT step with ml_segmentCount == count. */
  function RtStep(r: Rest, count: Bits2): (Outcome, seq<Segment>) {
    if r.left > MSS then
      (if count == 3 then Stop else More(Rest(Mod32(r.ackd + MSS), r.left - MSS, r.finSent)),
       [Segment(r.ackd, Mod18(r.ackd), MSS)])
    else
      (if r.finSent then SendFin else Stop, if r.left == 0 then [] else [Segment(r.ackd, Mod18(r.ackd), r.left)])
  }

  /** The whole of one RT event: all its data segments, and whether the FIN is sent again. */
  function RtRun(r: Rest, count: Bits2): (seq<Segment>, bool)
    decreases 3 - count
  {
    var (o, segs) := RtStep(r, count);
    match o
    case Stop => (segs, false)
    case SendFin => (segs, true)
    case More(r') => if count == 3 then (segs, false) else var (more, fin) := RtRun(r', count + 1); (segs + more, fin)
  }

  /** The segments cover length sequence numbers from start on: in order, without gap or overlap, none empty or above MSS. */
  predicate Covers(segs: seq<Segment>, start: int, length: nat) {
    if segs == [] then length == 0
    else
      && segs[0].seqNumb == Mod32(start) && segs[0].offset == Mod18(start)
      && 0 < segs[0].length <= MSS && segs[0].length <= length
      && Covers(segs[1..], start + segs[0].length, length - segs[0].length)
  }

  function Max(a: int, b: int): int { if a < b then b else a }
  function Min(a: nat, b: nat): nat { if a < b then a else b }

  lemma {:induction false} RtRunCovers(r: Rest, count: Bits2, start: int)
    requires r.ackd == Mod32(start)
    ensures var (segs, fin) := RtRun(r, count);
            && Covers(segs, start, Min(r.left, (4 - count) * MSS)) && |segs| <= 4 - count
            && (fin <==> r.finSent && r.left <= (4 - count) * MSS)
    decreases 3 - count
  {
    Mod18Of32(start);
    var (o, segs) := RtStep(r, count);
    if o.More? {
      Mod32Add(start, MSS);
      RtRunCovers(o.rest, count + 1, start + MSS);
      var (more, fin) := RtRun(o.rest, count + 1);
      assert (segs + more)[1..] == more;
    }
  }

  /** What the read of the table leaves to retransmit. */
  function RestOf(r: EngReply): Rest { Rest(r.ackd, r.usedLengthRst, r.finSent) }

  /** One RT event covers [ackd, ackd + min(usedLength_rst, 4 * MSS)) with at most four segments, and repeats a FIN that was
      sent exactly when that is all the data. */
  lemma {:induction false} RtCoverage(r: EngReply)
    ensures var (segs, fin) := RtRun(RestOf(r), 0);
            && Covers(segs, r.ackd, Min(r.usedLengthRst, 4 * MSS)) && |segs| <= 4
            && (fin <==> r.finSent && r.usedLengthRst <= 4 * MSS)
  {
    RtRunCovers(RestOf(r), 0, r.ackd);
  }

  /** The sequence number of a FIN sent by an event with the given retransmission count. */
  function FinSeq(r: EngReply, rtCount: nat): Seq32 { Mod32(r.notAckd - if rtCount != 0 then 1 else 0) }

  /** In unbounded counters: a acknowledged, n the next byte, the FIN having used n - 1. A timer-driven RT covers the data up to
      the FIN, and the FIN it repeats is the sequence number right behind that data. */
  lemma {:induction false} RtFinFollowsData(e: SarEntry, a: int, n: int, rtCount: nat)
    requires e.finSent && e.ackd == Mod32(a) && e.notAckd == Mod32(n) && 0 <= n - 1 - a < BUFFER_SIZE - 1 && rtCount != 0
    ensures SarReply(e).usedLengthRst == n - 1 - a
    ensures FinSeq(SarReply(e), rtCount) == Mod32(a + SarReply(e).usedLengthRst)
  {
    UsedIs(e.ackd, e.notAckd, a, n);
    Mod32Add(n, -1);
  }

  /** Without a FIN, the data left is all that was sent and not acknowledged. */
  lemma {:induction false} RtDataLength(e: SarEntry, a: int, n: int)
    requires !e.finSent && e.ackd == Mod32(a) && e.notAckd == Mod32(n) && 0 <= n - a < BUFFER_SIZE
    ensures SarReply(e).usedLengthRst == n - a
  {
    UsedIs(e.ackd, e.notAckd, a, n);
  }

  lemma {:induction false} UsedIs(ackd: Seq32, notAckd: Seq32, a: int, n: int)
    requires ackd == Mod32(a) && notAckd == Mod32(n) && 0 <= n - a < BUFFER_SIZE
    ensures Mod18(Mod18(notAckd) - Mod18(ackd)) == n - a
  {
    Mod18Of32(a);
    Mod18Of32(n);
    Mod18Diff(n, a);
  }

  /** What the TX engine reads, in unbounded counters: the pointers, what is in flight, and what of the smaller window is left. */
  lemma {:induction false} ReplyIs(e: SarEntry, a: int, n: int)
    requires e.ackd == Mod32(a) && e.notAckd == Mod32(n) && 0 <= n - a < BUFFER_SIZE
    ensures var r, f := SarReply(e), e.flow;
            && r.ackd == Mod32(a) && r.notAckd == Mod32(n) && r.finSent == e.finSent && r.usedLength == n - a
            && r.minWindow <= f.cong && r.minWindow <= f.recvWindow * Pow2(f.winShift)
            && (f.recvWindow * Pow2(f.winShift) < BUFFER_SIZE ==> r.minWindow == f.cong || r.minWindow == f.recvWindow * Pow2(f.winShift))
            && r.usableWindow == Max(0, r.minWindow - (n - a))
  {
    UsedIs(e.ackd, e.notAckd, a, n);
    MinWindowIs(e.flow.recvWindow, e.flow.winShift, e.flow.cong);
  }

  // ----- the process -----

  datatype EventType = TX | RT | RT_CONT | FIN | ACK
  datatype Event = Event(kind: EventType, id: SessionId, length: Word16, rtCount: nat)
  datatype RxInfo = RxInfo(recvd: Seq32, windowSize: Word16)
  datatype TxMeta = TxMeta(seqNumb: Seq32, ackNumb: Seq32, windowSize: Word16, length: Word16, ack: bool, syn: bool, fin: bool, rst: bool)
  datatype ReadCmd = ReadCmd(addr: Seq32, length: Word16)

  /** The new slow start threshold, in a variable of 16 bits. */
  function Threshold(left: Win18): Word16 { if left > 4 * MSS then (left / 2) % 0x1_0000 else 2 * MSS }

  /** RFC 5681, section 3.1: half of what is in flight, and at least two segments. It is, exactly as long as that half fits. */
  lemma {:induction false} ThresholdExactly(left: Win18)
    ensures Threshold(left) == Max(left / 2, 2 * MSS) <==> left < 0x2_0000
  {
    if left >= 0x2_0000 { assert Threshold(left) == left / 2 - 0x1_0000; }
  }

  function DataMeta(rx: RxInfo, s: Segment): TxMeta {
    TxMeta(s.seqNumb, rx.recvd, rx.windowSize, s.length, true, false, false, false)
  }

  function FinMeta(rx: RxInfo, seqNumb: Seq32): TxMeta { TxMeta(seqNumb, rx.recvd, rx.windowSize, 0, true, false, true, false) }

  /** A header of data: the number of its first byte, the acknowledgement and window read for it, and ACK alone. */
  predicate DataHeader(m: TxMeta, rx: RxInfo, seqNumb: Seq32, length: nat) {
    && m.seqNumb == seqNumb && m.ackNumb == rx.recvd && m.windowSize == rx.windowSize && m.length == length
    && m.ack && !m.syn && !m.fin && !m.rst
  }

  /** The header of a bare acknowledgement. */
  predicate AckHeader(m: TxMeta, rx: RxInfo, seqNumb: Seq32) {
    && m.seqNumb == seqNumb && m.ackNumb == rx.recvd && m.windowSize == rx.windowSize && m.length == 0
    && m.ack && !m.syn && !m.fin && !m.rst
  }

  /** The header of a FIN carries an acknowledgement, too. */
  predicate FinHeader(m: TxMeta, rx: RxInfo, seqNumb: Seq32) {
    && m.seqNumb == seqNumb && m.ackNumb == rx.recvd && m.windowSize == rx.windowSize && m.length == 0
    && m.ack && m.fin && !m.syn && !m.rst
  }

  /** A read command for the bytes of session id from sequence number seqNumb on. */
  predicate Fetches(c: ReadCmd, id: SessionId, seqNumb: Seq32, length: nat) {
    c.addr / BUFFER_SIZE == id && c.addr % BUFFER_SIZE == Mod18(seqNumb) && c.length == length
  }

  function Metas(rx: RxInfo, segs: seq<Segment>): seq<TxMeta> { seq(|segs|, i requires 0 <= i < |segs| => DataMeta(rx, segs[i])) }

  function Reads(id: SessionId, segs: seq<Segment>): seq<ReadCmd> {
    seq(|segs|, i requires 0 <= i < |segs| => ReadCmd(BufferAddress(id, segs[i].offset), segs[i].length))
  }

  class TxMetaLoader {
    var busy: bool
    var curEvent: Event
    var sarLoaded: bool
    var segmentCount: Bits2
    var rxSar: RxInfo
    var txSarR: EngReply
    var events: seq<Event>
    var rxSarRsp: seq<RxInfo>
    var txSarRsp: seq<EngReply>
    var rxSarReq: seq<SessionId>
    var txSarReq: seq<(SessionId, EngQuery)>
    var rtTimer: seq<SessionId>
    var probeTimer: seq<SessionId>
    var tcpMeta: seq<TxMeta>
    var readCmd: seq<ReadCmd>
    var ddrBypass: seq<bool>

    /** State 0: take an event and ask for both table entries. */
    method Take()
      requires !busy && events != []
      modifies `busy, `curEvent, `sarLoaded, `segmentCount, `events, `rxSarReq, `txSarReq
      ensures busy && curEvent == old(events[0]) && events == old(events)[1..] && !sarLoaded && segmentCount == 0
      ensures rxSarReq == old(rxSarReq) + [curEvent.id] && txSarReq == old(txSarReq) + [(curEvent.id, EngRead)]
    {
      curEvent, events := events[0], events[1..];
      sarLoaded := false;
      rxSarReq := rxSarReq + [curEvent.id];
      txSarReq := txSarReq + [(curEvent.id, EngRead)];
      busy := true;
      segmentCount := 0;
    }

    method Emit(s: Segment)
      requires s.length != 0
      modifies `readCmd, `tcpMeta, `ddrBypass, `rtTimer
      ensures readCmd == old(readCmd) + Reads(curEvent.id, [s]) && tcpMeta == old(tcpMeta) + Metas(rxSar, [s])
      ensures DataHeader(tcpMeta[|old(tcpMeta)|], rxSar, s.seqNumb, s.length)
      ensures ddrBypass == old(ddrBypass) + [false] && rtTimer == old(rtTimer) + [curEvent.id]
    {
      readCmd := readCmd + [ReadCmd(BufferAddress(curEvent.id, s.offset), s.length)];
      tcpMeta := tcpMeta + [DataMeta(rxSar, s)];
      ddrBypass := ddrBypass + [false];
      rtTimer := rtTimer + [curEvent.id];
    }

    /** New data goes out straight from the application. */
    method EmitNew(seqNumb: Seq32)
      modifies `tcpMeta, `ddrBypass, `rtTimer
      ensures tcpMeta == old(tcpMeta) + [DataMeta(rxSar, Segment(seqNumb, 0, curEvent.length))]
      ensures DataHeader(tcpMeta[|old(tcpMeta)|], rxSar, seqNumb, curEvent.length)
      ensures ddrBypass == old(ddrBypass) + [true] && rtTimer == old(rtTimer) + [curEvent.id]
    {
      tcpMeta := tcpMeta + [TxMeta(seqNumb, rxSar.recvd, rxSar.windowSize, curEvent.length, true, false, false, false)];
      ddrBypass := ddrBypass + [true];
      rtTimer := rtTimer + [curEvent.id];
    }

    /** New data: it is sent at not_ackd, and not_ackd moves behind it. */
    method SendNew()
      requires busy && curEvent.kind.TX? && rxSarRsp != [] && txSarRsp != []
      modifies `busy, `sarLoaded, `rxSar, `rxSarRsp, `txSarRsp, `txSarReq, `probeTimer, `tcpMeta, `ddrBypass, `rtTimer
      ensures !busy && rxSarRsp == old(rxSarRsp)[1..] && txSarRsp == old(txSarRsp)[1..] && rxSar == old(rxSarRsp[0])
      ensures txSarReq == old(txSarReq) + [(curEvent.id, EngWrite(Mod32(old(txSarRsp[0]).notAckd + curEvent.length), false, false, false))]
      ensures probeTimer == old(probeTimer) + if old(txSarRsp[0]).usableWindow < curEvent.length then [curEvent.id] else []
      ensures curEvent.length == 0 ==> tcpMeta == old(tcpMeta) && ddrBypass == old(ddrBypass) && rtTimer == old(rtTimer)
      ensures curEvent.length != 0 ==>
                && tcpMeta == old(tcpMeta) + [DataMeta(rxSar, Segment(old(txSarRsp[0]).notAckd, 0, curEvent.length))]
                && DataHeader(tcpMeta[|old(tcpMeta)|], old(rxSarRsp[0]), old(txSarRsp[0]).notAckd, curEvent.length)
                && ddrBypass == old(ddrBypass) + [true] && rtTimer == old(rtTimer) + [curEvent.id]
    {
      rxSar, rxSarRsp := rxSarRsp[0], rxSarRsp[1..];
      var txSar := txSarRsp[0];
      txSarRsp := txSarRsp[1..];
      if txSar.usableWindow < curEvent.length {
        probeTimer := probeTimer + [curEvent.id];
      }
      txSarReq := txSarReq + [(curEvent.id, EngWrite(Mod32(txSar.notAckd + curEvent.length), false, false, false))];
      if curEvent.length != 0 {
        EmitNew(txSar.notAckd);
      }
      sarLoaded := true;
      busy := false;
    }

    /** A retransmission begins with both replies; the first timer-driven one also lowers the slow start threshold. */
    method LoadRetransmit()
      requires busy && curEvent.kind.RT? && !sarLoaded && rxSarRsp != [] && txSarRsp != []
      modifies `rxSar, `txSarR, `rxSarRsp, `txSarRsp, `txSarReq, `sarLoaded
      ensures rxSarRsp == old(rxSarRsp)[1..] && txSarRsp == old(txSarRsp)[1..] && sarLoaded
      ensures rxSar == old(rxSarRsp[0]) && txSarR == old(txSarRsp[0])
      ensures txSarReq == old(txSarReq) + if curEvent.rtCount == 1 then [(curEvent.id, EngRt(Threshold(txSarR.usedLengthRst)))] else []
    {
      rxSar, rxSarRsp := rxSarRsp[0], rxSarRsp[1..];
      txSarR, txSarRsp := txSarRsp[0], txSarRsp[1..];
      if curEvent.rtCount == 1 {
        txSarReq := txSarReq + [(curEvent.id, EngRt(Threshold(txSarR.usedLengthRst)))];
      }
      sarLoaded := true;
    }

    /** One retransmitted segment, the first (RT) or a further one (RT_CONT). */
    method RetransmitSegment()
      requires busy && sarLoaded && (curEvent.kind.RT_CONT? || (curEvent.kind.RT? && segmentCount == 0))
      modifies `busy, `curEvent, `segmentCount, `txSarR, `readCmd, `tcpMeta, `ddrBypass, `rtTimer
      ensures curEvent.id == old(curEvent.id) && curEvent.rtCount == old(curEvent.rtCount) && txSarR.notAckd == old(txSarR.notAckd)
      ensures var (o, segs) := RtStep(RestOf(old(txSarR)), old(segmentCount));
              && readCmd == old(readCmd) + Reads(curEvent.id, segs) && tcpMeta == old(tcpMeta) + Metas(rxSar, segs)
              && (segs != [] ==> DataHeader(tcpMeta[|old(tcpMeta)|], rxSar, old(txSarR).ackd, segs[0].length)
                                 && Fetches(readCmd[|old(readCmd)|], curEvent.id, old(txSarR).ackd, segs[0].length))
              && (o.More? ==> busy && curEvent.kind.RT_CONT? && segmentCount == old(segmentCount) + 1 && RestOf(txSarR) == o.rest)
              && (o.SendFin? ==> busy && curEvent.kind.FIN?)
              && (o.Stop? ==> !busy)
    {
      var currLength := txSarR.usedLengthRst;
      var segment := Segment(txSarR.ackd, Mod18(txSarR.ackd), if currLength > MSS then MSS else currLength);
      if currLength > MSS {
        txSarR := txSarR.(ackd := Mod32(txSarR.ackd + MSS), usedLengthRst := txSarR.usedLengthRst - MSS);
        if segmentCount == 3 {
          busy := false;
        }
        curEvent := curEvent.(kind := RT_CONT);
        segmentCount := (segmentCount + 1) % 4;
      } else if txSarR.finSent {
        curEvent := curEvent.(kind := FIN);
      } else {
        busy := false;
      }
      if segment.length != 0 {
        Emit(segment);
      }
    }

    /** An ACK or ACK_NODELAY event: the acknowledgement alone, with the next sequence number; nothing to be repeated, no table written. */
    method SendAck()
      requires busy && curEvent.kind.ACK? && rxSarRsp != [] && txSarRsp != []
      modifies `busy, `rxSar, `rxSarRsp, `txSarRsp, `tcpMeta
      ensures !busy && rxSarRsp == old(rxSarRsp)[1..] && txSarRsp == old(txSarRsp)[1..]
      ensures |tcpMeta| == |old(tcpMeta)| + 1 && tcpMeta[..|old(tcpMeta)|] == old(tcpMeta)
      ensures AckHeader(tcpMeta[|old(tcpMeta)|], old(rxSarRsp[0]), old(txSarRsp[0]).notAckd)
    {
      rxSar, rxSarRsp := rxSarRsp[0], rxSarRsp[1..];
      var txSar := txSarRsp[0];
      txSarRsp := txSarRsp[1..];
      tcpMeta := tcpMeta + [TxMeta(txSar.notAckd, rxSar.recvd, rxSar.windowSize, 0, true, false, false, false)];
      busy := false;
    }

    /** The FIN behind a retransmission: a timer-driven one reuses its sequence number and leaves the table alone. */
    method RepeatFin()
      requires busy && curEvent.kind.FIN? && sarLoaded
      modifies `busy, `tcpMeta, `txSarReq, `rtTimer
      ensures !busy && tcpMeta == old(tcpMeta) + [FinMeta(rxSar, FinSeq(txSarR, curEvent.rtCount))]
      ensures FinHeader(tcpMeta[|old(tcpMeta)|], rxSar, Mod32(txSarR.notAckd - if curEvent.rtCount != 0 then 1 else 0))
      ensures rtTimer == old(rtTimer) + [curEvent.id]
      ensures txSarReq == old(txSarReq) + (if curEvent.rtCount != 0 then [] else [(curEvent.id, EngWrite(Mod32(txSarR.notAckd + 1), false, true, true))])
    {
      var seqNumb := Mod32(txSarR.notAckd - if curEvent.rtCount != 0 then 1 else 0);
      if curEvent.rtCount == 0 {
        txSarReq := txSarReq + [(curEvent.id, EngWrite(Mod32(txSarR.notAckd + 1), false, true, true))];
      }
      tcpMeta := tcpMeta + [FinMeta(rxSar, seqNumb)];
      rtTimer := rtTimer + [curEvent.id];
      busy := false;
    }
  }
}
