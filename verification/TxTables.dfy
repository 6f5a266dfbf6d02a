/** The two tables of the transmit path and the admission of application writes:
    tx_sar_table, tx_app_table and tasi_metaLoader, each as a class over its arrays and streams,
    tied to one function per table entry. */
module TxTables {
  import opened ToeTypes
  import opened TcpFsm

  const INITIAL_WINDOW: Win18 := 0x3908

  /** Flow control part of a tx_sar_table entry. */
  datatype Flow = Flow(recvWindow: Word16, winShift: Bits4, cong: Win18, ssthresh: Win18, count: Bits2, fast: bool)

  datatype SarEntry = SarEntry(ackd: Seq32, notAckd: Seq32, app: Win18, flow: Flow, finReady: bool, finSent: bool)

  /** Requests of the TX engine. */
  datatype EngQuery =
    | EngRead
    | EngWrite(notAckd: Seq32, init: bool, finReady: bool, finSent: bool)
    | EngRt(threshold: Win18)

  datatype EngReply = EngReply(
    ackd: Seq32, notAckd: Seq32, finSent: bool, usedLength: Win18, usedLengthRst: Win18, minWindow: Win18, usableWindow: Win18)

  datatype AckPush = AckPush(ackd: Win18, minWindow: Win18, init: bool)

  // ----- tx_sar_table, one entry -----

  function ScaledWindow(recvWindow: Word16, shift: Bits4): Win18 { Mod18(recvWindow * Pow2(shift)) }

  function MinWindow(recvWindow: Word16, shift: Bits4, cong: Win18): Win18 {
    if cong < ScaledWindow(recvWindow, shift) then cong else ScaledWindow(recvWindow, shift)
  }

  /** The window that is pushed is never above the congestion window or the announced window, and it is the smaller of the two exactly
      if the announced window fits in WINDOW_BITS bits, or what is left of it does not undercut the congestion window. */
  lemma {:induction false} MinWindowIs(recvWindow: Word16, shift: Bits4, cong: Win18)
    ensures var w, announced := MinWindow(recvWindow, shift, cong), recvWindow * Pow2(shift);
            && w <= cong && w <= announced && (w == cong || w == announced % BUFFER_SIZE)
            && ((if cong < announced then w == cong else w == announced)
                <==> announced < BUFFER_SIZE || cong <= announced % BUFFER_SIZE)
  {
    assert 0 <= recvWindow * Pow2(shift);
  }

  /** It always fits with a shift up to 2, the largest the option parser lets through. */
  lemma {:induction false} AnnouncedFits(recvWindow: Word16, shift: Bits4)
    requires shift <= WINDOW_SCALE_BITS
    ensures recvWindow * Pow2(shift) < BUFFER_SIZE
  {
    assert Pow2(0) == 1 && Pow2(1) == 2 && Pow2(2) == 4;
  }

  function SarAfterEng(e: SarEntry, q: EngQuery): SarEntry {
    match q
    case EngRead => e
    case EngRt(threshold) => e.(flow := e.flow.(ssthresh := threshold, cong := INITIAL_WINDOW))
    case EngWrite(n, init, ready, sent) =>
      if init then
        SarEntry(Mod32(n - 1), n, Mod18(n), e.flow.(cong := INITIAL_WINDOW, ssthresh := BUFFER_SIZE - 1), ready, sent)
      else e.(notAckd := n, finReady := e.finReady || ready, finSent := e.finSent || sent)
  }

  function SarReply(e: SarEntry): EngReply {
    var used := Mod18(Mod18(e.notAckd) - Mod18(e.ackd));
    var win := MinWindow(e.flow.recvWindow, e.flow.winShift, e.flow.cong);
    EngReply(e.ackd, e.notAckd, e.finSent, used, Mod18(used - if e.finSent then 1 else 0), win,
             if win > used then win - used else 0)
  }

  function PushAfterEng(q: EngQuery): seq<AckPush> {
    if q.EngWrite? && q.init then [AckPush(Mod18(q.notAckd), INITIAL_WINDOW, true)] else []
  }

  function SarAfterRx(e: SarEntry, w: TxSarReq): SarEntry {
    match w
    case ReadTx(_) => e
    case WriteTx(_, ackd, win, cong, count, fast, shiftWrite, shift) =>
      e.(ackd := ackd, flow := Flow(win, if shiftWrite then shift else e.flow.winShift, cong, e.flow.ssthresh, count, fast))
  }

  function RxReply(e: SarEntry): TxSarReply {
    TxSarReply(e.ackd, e.notAckd, e.flow.count, e.flow.fast, e.flow.winShift, e.flow.cong, e.flow.ssthresh)
  }

  function PushAfterRx(w: TxSarReq): seq<AckPush> {
    if w.WriteTx? then [AckPush(Mod18(w.ackd), MinWindow(w.recvWindow, w.txWinShift, w.congWindow), false)] else []
  }

  class TxSarTable {
    const table: array<SarEntry>
    var engReq: seq<(SessionId, EngQuery)>
    var appPush: seq<(SessionId, Win18)>
    var rxReq: seq<TxSarReq>
    var engRsp: seq<EngReply>
    var rxRsp: seq<TxSarReply>
    var ackPush: seq<(SessionId, AckPush)>

    constructor (init: SarEntry)
      ensures Valid() && fresh(table) && engReq == [] && rxReq == [] && ackPush == []
    {
      table := new SarEntry[MAX_SESSIONS](_ => init);
      engReq, appPush, rxReq, engRsp, rxRsp, ackPush := [], [], [], [], [], [];
    }

    ghost predicate Valid() reads this { table.Length == MAX_SESSIONS }

    method WriteEng(id: SessionId, n: Seq32, init: bool, ready: bool, sent: bool)
      requires Valid()
      modifies table, `ackPush
      ensures table[..] == old(table[..])[id := SarAfterEng(old(table[id]), EngWrite(n, init, ready, sent))]
      ensures ackPush == if init then old(ackPush) + [(id, AckPush(Mod18(n), INITIAL_WINDOW, true))] else old(ackPush)
    {
      var e := table[id].(notAckd := n);
      if init {
        e := e.(app := Mod18(n), ackd := Mod32(n - 1), finReady := ready, finSent := sent,
                flow := e.flow.(cong := INITIAL_WINDOW, ssthresh := BUFFER_SIZE - 1));
        ackPush := ackPush + [(id, AckPush(Mod18(n), INITIAL_WINDOW, true))];
      }
      if ready { e := e.(finReady := true); }
      if sent { e := e.(finSent := true); }
      table[id] := e;
    }

    method SmallerWindow(recvWindow: Word16, shift: Bits4, cong: Win18) returns (minWindow: Win18)
      ensures minWindow == MinWindow(recvWindow, shift, cong)
    {
      minWindow := ScaledWindow(recvWindow, shift);
      if cong < minWindow { minWindow := cong; }
    }

    method ReadEng(id: SessionId)
      requires Valid()
      modifies `engRsp
      ensures engRsp == old(engRsp) + [SarReply(table[id])]
    {
      var e := table[id];
      var usedLength := Mod18(Mod18(e.notAckd) - Mod18(e.ackd));
      var usedLengthRst := Mod18(Mod18(e.notAckd) - Mod18(e.ackd) - if e.finSent then 1 else 0);
      Mod18Add(Mod18(e.notAckd) - Mod18(e.ackd), if e.finSent then -1 else 0);
      var minWindow := SmallerWindow(e.flow.recvWindow, e.flow.winShift, e.flow.cong);
      var usable: Win18 := 0;
      if minWindow > usedLength { usable := minWindow - usedLength; }
      engRsp := engRsp + [EngReply(e.ackd, e.notAckd, e.finSent, usedLength, usedLengthRst, minWindow, usable)];
    }

    method FromEngine(id: SessionId, q: EngQuery)
      requires Valid()
      modifies table, `ackPush, `engRsp
      ensures table[..] == old(table[..])[id := SarAfterEng(old(table[id]), q)]
      ensures engRsp == old(engRsp) + if q.EngRead? then [SarReply(old(table[id]))] else []
      ensures ackPush == if PushAfterEng(q) != [] then old(ackPush) + [(id, PushAfterEng(q)[0])] else old(ackPush)
    {
      match q
      case EngRead =>
        ReadEng(id);
      case EngRt(threshold) =>
        table[id] := table[id].(flow := table[id].flow.(ssthresh := threshold, cong := INITIAL_WINDOW));
      case EngWrite(n, init, ready, sent) =>
        WriteEng(id, n, init, ready, sent);
    }

    method FromRx(w: TxSarReq)
      requires Valid()
      modifies table, `ackPush, `rxRsp
      ensures table[..] == old(table[..])[w.id := SarAfterRx(old(table[w.id]), w)]
      ensures rxRsp == old(rxRsp) + if w.ReadTx? then [RxReply(old(table[w.id]))] else []
      ensures ackPush == old(ackPush) + if w.WriteTx? then [(w.id, PushAfterRx(w)[0])] else []
    {
      match w
      case ReadTx(id) =>
        rxRsp := rxRsp + [RxReply(table[id])];
      case WriteTx(id, ackd, win, cong, count, fast, shiftWrite, shift) =>
        var e := table[id];
        if shiftWrite { e := e.(flow := e.flow.(winShift := shift)); }
        table[id] := e.(ackd := ackd, flow := Flow(win, e.flow.winShift, cong, e.flow.ssthresh, count, fast));
        var minWindow := SmallerWindow(win, shift, cong);
        ackPush := ackPush + [(id, AckPush(Mod18(ackd), minWindow, false))];
    }

    /** One request per step: the TX engine first, then the application pointer, then the RX engine. */
    method Step()
      requires Valid()
      modifies this, table
      ensures old(engReq) != [] ==>
                var (id, q) := old(engReq[0]);
                && table[..] == old(table[..])[id := SarAfterEng(old(table[id]), q)]
                && engReq == old(engReq)[1..] && appPush == old(appPush) && rxReq == old(rxReq) && rxRsp == old(rxRsp)
                && engRsp == old(engRsp) + (if q.EngRead? then [SarReply(old(table[id]))] else [])
                && ackPush == (if PushAfterEng(q) != [] then old(ackPush) + [(id, PushAfterEng(q)[0])] else old(ackPush))
      ensures old(engReq) == [] && old(appPush) != [] ==>
                var (id, app) := old(appPush[0]);
                && table[..] == old(table[..])[id := old(table[id]).(app := app)]
                && engReq == [] && appPush == old(appPush)[1..] && rxReq == old(rxReq)
                && engRsp == old(engRsp) && rxRsp == old(rxRsp) && ackPush == old(ackPush)
      ensures old(engReq) == [] && old(appPush) == [] && old(rxReq) != [] ==>
                var w := old(rxReq[0]);
                && table[..] == old(table[..])[w.id := SarAfterRx(old(table[w.id]), w)]
                && engReq == [] && appPush == [] && rxReq == old(rxReq)[1..] && engRsp == old(engRsp)
                && rxRsp == old(rxRsp) + (if w.ReadTx? then [RxReply(old(table[w.id]))] else [])
                && ackPush == old(ackPush) + (if w.WriteTx? then [(w.id, PushAfterRx(w)[0])] else [])
      ensures old(engReq) == [] && old(appPush) == [] && old(rxReq) == [] ==>
                && table[..] == old(table[..]) && engReq == [] && appPush == [] && rxReq == []
                && engRsp == old(engRsp) && rxRsp == old(rxRsp) && ackPush == old(ackPush)
    {
      if engReq != [] {
        var (id, q) := engReq[0];
        engReq := engReq[1..];
        FromEngine(id, q);
      } else if appPush != [] {
        var (id, app) := appPush[0];
        appPush := appPush[1..];
        table[id] := table[id].(app := app);
      } else if rxReq != [] {
        var w := rxReq[0];
        rxReq := rxReq[1..];
        FromRx(w);
      }
    }
  }

  /** What one engine writes the other reads: the RX engine the next byte and the lowered windows, the TX engine the acknowledgement; and the
      RX engine its own counters, windows and scale. */
  lemma {:induction false} ReadAfterWrite(e: SarEntry, w: TxSarReq, q: EngQuery)
    requires w.WriteTx? && !q.EngRead? && (q.EngWrite? ==> !q.init)
    ensures var r := RxReply(SarAfterRx(e, w));
            && r.prevAck == w.ackd && r.nextByte == e.notAckd && r.count == w.count && r.fastRetransmitted == w.fastRetransmitted
            && r.congWindow == w.congWindow && r.slowstartThreshold == RxReply(e).slowstartThreshold
            && r.txWinShift == if w.shiftWrite then w.txWinShift else RxReply(e).txWinShift
    ensures var r := RxReply(SarAfterEng(e, q));
            && (q.EngWrite? ==> r == RxReply(e).(nextByte := q.notAckd))
            && (q.EngRt? ==> r == RxReply(e).(congWindow := 0x3908, slowstartThreshold := q.threshold))
    ensures SarReply(SarAfterRx(e, w)).ackd == w.ackd && (q.EngWrite? ==> SarReply(SarAfterEng(e, q)).notAckd == q.notAckd)
  {
  }

  // ----- tx_app_table, one entry -----

  datatype AppEntry = AppEntry(ackd: Win18, mempt: Win18, minWindow: Win18)
  datatype AppQuery = ReadApp | WriteApp(mempt: Win18)

  function AfterPush(e: AppEntry, p: AckPush): AppEntry {
    if p.init then AppEntry(Mod18(p.ackd - 1), p.ackd, p.minWindow) else e.(ackd := p.ackd, minWindow := p.minWindow)
  }

  function AfterQuery(e: AppEntry, q: AppQuery): AppEntry { if q.WriteApp? then e.(mempt := q.mempt) else e }

  class TxAppTable {
    const table: array<AppEntry>
    var ackPush: seq<(SessionId, AckPush)>
    var req: seq<(SessionId, AppQuery)>
    var rsp: seq<AppEntry>

    constructor ()
      ensures Valid() && fresh(table) && ackPush == [] && req == [] && rsp == []
    {
      table := new AppEntry[MAX_SESSIONS](_ => AppEntry(0, 0, 0));
      ackPush, req, rsp := [], [], [];
    }

    ghost predicate Valid() reads this { table.Length == MAX_SESSIONS }

    /** An acknowledgement push goes before any application request. */
    method Step()
      requires Valid()
      modifies this, table
      ensures old(ackPush) != [] ==>
                var (id, p) := old(ackPush[0]);
                && table[..] == old(table[..])[id := AfterPush(old(table[id]), p)]
                && ackPush == old(ackPush)[1..] && req == old(req) && rsp == old(rsp)
      ensures old(ackPush) == [] && old(req) != [] ==>
                var (id, q) := old(req[0]);
                && table[..] == old(table[..])[id := AfterQuery(old(table[id]), q)]
                && rsp == old(rsp) + (if q.ReadApp? then [old(table[id])] else [])
                && ackPush == [] && req == old(req)[1..]
      ensures old(ackPush) == [] && old(req) == [] ==>
                table[..] == old(table[..]) && ackPush == [] && req == [] && rsp == old(rsp)
    {
      if ackPush != [] {
        var (id, p) := ackPush[0];
        ackPush := ackPush[1..];
        if p.init {
          table[id] := AppEntry(Mod18(p.ackd - 1), p.ackd, p.minWindow);
        } else {
          table[id] := table[id].(ackd := p.ackd, minWindow := p.minWindow);
        }
      } else if req != [] {
        var (id, q) := req[0];
        req := req[1..];
        match q {
          case WriteApp(m) => table[id] := table[id].(mempt := m);
          case ReadApp => rsp := rsp + [table[id]];
        }
      }
    }
  }

  // ----- tasi_metaLoader -----

  datatype Verdict = NoConnection | WindowFull | NoSpace | Admit

  datatype AppRsp = AppRsp(length: Word16, space: Win18, verdict: Verdict)
  datatype TxEvent = TxEvent(id: SessionId, addr: Win18, length: Word16)
  datatype WriteCmd = WriteCmd(addr: Seq32, length: Word16)

  function MaxWrite(e: AppEntry): Win18 { Mod18(e.ackd - e.mempt - 1) }

  function Usable(e: AppEntry): Win18 {
    var used := Mod18(e.mempt - e.ackd);
    if e.minWindow > used then e.minWindow - used else 0
  }

  function Admission(e: AppEntry, st: SessionState, length: Word16): Verdict {
    if !st.Established? then NoConnection
    else if Usable(e) < length then WindowFull
    else if length > MaxWrite(e) then NoSpace
    else Admit
  }

  /** Admission in unbounded counters: with a bytes acknowledged, as the entry knows it, and m bytes accepted, the write of an
      established session is admitted exactly when it is empty or the used length stays within the window. */
  lemma {:induction false} AdmissionIsWindowTest(e: AppEntry, st: SessionState, length: Word16, a: int, m: int)
    requires a <= m < a + BUFFER_SIZE && e.ackd == Mod18(a) && e.mempt == Mod18(m)
    ensures Admission(e, st, length).Admit? <==> st.Established? && (length == 0 || m + length - a <= e.minWindow)
    ensures MaxWrite(e) == BUFFER_SIZE - 1 - (m - a)
  {
    Mod18Diff(m, a);
    assert e.ackd - e.mempt - 1 == -(e.mempt - e.ackd) - 1;
  }

  /** The answer to a write that is refused: no connection, or more than the space reported, which is what is left of the window. The third
      reason, no space in the buffer, never applies: the window leaves less than the buffer. */
  lemma {:induction false} RefusedExactly(e: AppEntry, st: SessionState, length: Word16, a: int, m: int)
    requires a <= m < a + BUFFER_SIZE && e.ackd == Mod18(a) && e.mempt == Mod18(m)
    ensures Admission(e, st, length).NoConnection? <==> !st.Established?
    ensures Usable(e) == if m - a < e.minWindow then e.minWindow - (m - a) else 0
    ensures Admission(e, st, length).WindowFull? <==> st.Established? && Usable(e) < length
    ensures !Admission(e, st, length).NoSpace? && Usable(e) <= MaxWrite(e)
  {
    AdmissionIsWindowTest(e, st, length, a, m);
    Mod18Diff(m, a);
  }

  /** The buffer of a session starts at its number times 2^WINDOW_BITS. */
  function BufferAddress(id: SessionId, offset: Win18): Seq32 { id * BUFFER_SIZE + offset }

  datatype TasiState = ReadRequest | ReadMeta

  class TasiMetaLoader {
    var state: TasiState
    var writeId: SessionId
    var writeLength: Word16
    var metaIn: seq<(SessionId, Word16)>
    var stateRsp: seq<SessionState>
    var sarRsp: seq<AppEntry>
    var appRsp: seq<AppRsp>
    var stateReq: seq<SessionId>
    var sarReq: seq<(SessionId, AppQuery)>
    var writeCmd: seq<WriteCmd>
    var events: seq<TxEvent>

    method Request()
      requires state.ReadRequest? && metaIn != []
      modifies this
      ensures state.ReadMeta? && (writeId, writeLength) == old(metaIn[0]) && metaIn == old(metaIn)[1..]
      ensures stateReq == old(stateReq) + [writeId] && sarReq == old(sarReq) + [(writeId, ReadApp)]
      ensures stateRsp == old(stateRsp) && sarRsp == old(sarRsp)
      ensures appRsp == old(appRsp) && writeCmd == old(writeCmd) && events == old(events)
    {
      writeId, writeLength := metaIn[0].0, metaIn[0].1;
      metaIn := metaIn[1..];
      stateReq := stateReq + [writeId];
      sarReq := sarReq + [(writeId, ReadApp)];
      state := ReadMeta;
    }

    method Decide()
      requires state.ReadMeta? && sarRsp != [] && stateRsp != []
      modifies this
      ensures state.ReadRequest? && sarRsp == old(sarRsp)[1..] && stateRsp == old(stateRsp)[1..]
      ensures metaIn == old(metaIn) && stateReq == old(stateReq) && writeId == old(writeId) && writeLength == old(writeLength)
      ensures var e, verdict := old(sarRsp[0]), Admission(old(sarRsp[0]), old(stateRsp[0]), writeLength);
              && appRsp == old(appRsp) + [AppRsp(writeLength, if verdict.WindowFull? then Usable(e) else MaxWrite(e), verdict)]
              && (verdict.Admit? ==>
                    && writeCmd == old(writeCmd) + [WriteCmd(BufferAddress(writeId, e.mempt), writeLength)]
                    && events == old(events) + [TxEvent(writeId, e.mempt, writeLength)]
                    && sarReq == old(sarReq) + [(writeId, WriteApp(Mod18(e.mempt + writeLength)))])
              && (!verdict.Admit? ==> writeCmd == old(writeCmd) && events == old(events) && sarReq == old(sarReq))
    {
      var e, st := sarRsp[0], stateRsp[0];
      sarRsp, stateRsp := sarRsp[1..], stateRsp[1..];
      var maxWriteLength := Mod18(e.ackd - e.mempt - 1);
      var usedLength := Mod18(e.mempt - e.ackd);
      var usable: Win18 := 0;
      if e.minWindow > usedLength { usable := e.minWindow - usedLength; }
      if !st.Established? {
        appRsp := appRsp + [AppRsp(writeLength, maxWriteLength, NoConnection)];
      } else if usable < writeLength {
        appRsp := appRsp + [AppRsp(writeLength, usable, WindowFull)];
      } else if writeLength > maxWriteLength {
        appRsp := appRsp + [AppRsp(writeLength, maxWriteLength, NoSpace)];
      } else {
        writeCmd := writeCmd + [WriteCmd(BufferAddress(writeId, e.mempt), writeLength)];
        appRsp := appRsp + [AppRsp(writeLength, maxWriteLength, Admit)];
        events := events + [TxEvent(writeId, e.mempt, writeLength)];
        sarReq := sarReq + [(writeId, WriteApp(Mod18(e.mempt + writeLength)))];
      }
      state := ReadRequest;
    }
  }
}
