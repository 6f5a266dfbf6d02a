/** Retransmission fidelity is bounded. A run in which a queued read is overtaken by the acknowledgement of its range and by a full window
    of newer application writes, so that a retransmission carries other bytes than the packet it repeats; and one in which the read is
    done ahead of the write. */
module TxOverrun {
  import opened CircularBuffer
  import opened Words
  import opened ToeTypes
  import opened TcpFsm
  import opened TxTables
  import opened Retransmit
  import opened TxWindow
  import opened TxFidelity
  import W = BufferWrite

  /** The first write is one full segment; the later ones are half as long. */
  const N: nat := MSS
  const H: nat := 2048

  // ----- the window, one step of the protocol at a time -----

  datatype Flight = Flight(acked: nat, sent: nat, minWindow: Win18, flow: Flow)

  /** The congestion window has grown to its limit, and the peer's window holds as much. */
  predicate WideOpen(f: Flow) { f.cong >= CONGESTION_WINDOW_MAX && f.winShift == 2 }

  /** Nothing under way but what is unacknowledged: the entries of both tables agree with the flight. */
  predicate Resting(w: Win, f: Flight) {
    && w.sar.ackd == f.acked && w.sar.notAckd == f.sent && w.sar.flow == f.flow && !w.sar.finSent && WideOpen(f.flow)
    && w.app == App(AppEntry(Mod18(f.acked), Mod18(f.sent), f.minWindow), [], [], [], None)
    && w.eng == Eng([], Idle, [], []) && w.rx == Rx(None, [], [])
  }

  predicate AllQuiet(w: Win, a: Action) { LabelOf(w, a).Quiet? && Acceptable(w, a) }

  function Asked(w: Win, n: Word16): Win { Apply(Apply(w, Request(n)), AppTable) }
  function Accepted(w: Win): Win { Apply(Apply(w, Decide(Established)), AppTable) }
  function Loaded(w: Win): Win { Apply(Apply(w, TakeNew), EngTable) }
  function SentOff(w: Win): Win { Apply(Apply(w, SendNew), EngTable) }

  lemma {:induction false} AskRound(w: Win, e: AppEntry, n: Word16)
    requires w.app == App(e, [], [], [], None)
    ensures AllQuiet(w, Request(n)) && AllQuiet(Apply(w, Request(n)), AppTable)
    ensures Asked(w, n) == w.(app := App(e, [], [], [e], Some(n)))
  {}

  /** A write of n bytes at position m with everything below a acknowledged. */
  lemma {:induction false} AcceptRound(w: Win, e: AppEntry, n: Word16, a: int, m: int)
    requires w.app == App(e, [], [], [e], Some(n)) && e.ackd == Mod18(a) && e.mempt == Mod18(m)
    requires a <= m < a + BUFFER_SIZE && m + n - a <= e.minWindow
    ensures var v := Apply(w, Decide(Established));
            && LabelOf(w, Decide(Established)) == Admitted(Mod18(m), n) && Acceptable(w, Decide(Established)) && AllQuiet(v, AppTable)
    ensures Accepted(w) == w.(app := App(e.(mempt := Mod18(m + n)), [], [], [], None),
                              eng := w.eng.(events := w.eng.events + [NewData(Mod18(m), n)]))
  {
    AdmissionIsWindowTest(e, Established, n, a, m);
    Mod18Add(m, n);
  }

  lemma {:induction false} LoadRound(w: Win, e: NewData)
    requires w.eng == Eng([e], Idle, [], [])
    ensures AllQuiet(w, TakeNew) && AllQuiet(Apply(w, TakeNew), EngTable)
    ensures Loaded(w) == w.(eng := Eng([], New(e), [], [SarReply(w.sar)]))
  {}

  lemma {:induction false} SendRound(w: Win, e: NewData)
    requires w.eng == Eng([], New(e), [], [SarReply(w.sar)]) && e.length == N && w.sar.notAckd + N < SEQ_SPACE
    ensures LabelOf(w, SendNew) == Sent(w.sar.notAckd, N) && Acceptable(w, SendNew) && AllQuiet(Apply(w, SendNew), EngTable)
    ensures SentOff(w) == w.(eng := Eng([], Idle, [], []), sar := w.sar.(notAckd := w.sar.notAckd + N))
  {}

  /** The peer acknowledges everything below a. */
  function Ack(a: Seq32): SegmentMeta { SegmentMeta(0, 0, a, 0xFFFF, 0, 0, true, false, false, false) }

  const RX_SAR: RxSarEntry := RxSarEntry(0, 0, 0)

  function Respond(): Action { RxRespond(Established, RX_SAR, 0) }
  function AckTaken(w: Win, m: SegmentMeta): Win { Apply(Apply(w, RxTake(m)), RxTable) }
  function AckWritten(w: Win): Win { Apply(Apply(w, Respond()), RxTable) }

  function FlowAfter(m: SegmentMeta, e: SarEntry): Flow {
    var tx := RxReply(e);
    Flow(0xFFFF, e.flow.winShift, CongAfterAck(m, tx), e.flow.ssthresh, CountAfterAck(m, tx), CountAfterAck(m, tx) == 3 || FastAfterAck(m, tx))
  }

  lemma {:induction false} AckTakeRound(w: Win, m: SegmentMeta)
    requires w.eng == Eng([], Idle, [], []) && w.rx == Rx(None, [], [])
    ensures AllQuiet(w, RxTake(m)) && AllQuiet(Apply(w, RxTake(m)), RxTable)
    ensures AckTaken(w, m) == w.(rx := Rx(Some(m), [], [RxReply(w.sar)]))
  {}

  lemma {:induction false} AckWriteRound(w: Win, m: SegmentMeta, a: Seq32)
    requires w.eng.req == [] && w.rx == Rx(Some(m), [], [RxReply(w.sar)]) && w.app.pushes == [] && m == Ack(a)
    requires w.sar.ackd <= a <= w.sar.notAckd && w.sar.flow.winShift == 2
    ensures AllQuiet(w, Respond()) && AllQuiet(Apply(w, Respond()), RxTable)
    ensures AckWritten(w) == w.(sar := w.sar.(ackd := a, flow := FlowAfter(m, w.sar)), rx := Rx(None, [], []),
                                app := w.app.(pushes := [AckPush(Mod18(a), MinWindow(0xFFFF, 2, FlowAfter(m, w.sar).cong), false)]))
  {
    assert AckInWindow(m.ackNumb, RxReply(w.sar));
  }

  lemma {:induction false} AckPushRound(w: Win, p: AckPush)
    requires w.app.pushes == [p] && !p.init
    ensures AllQuiet(w, AppTable)
    ensures Apply(w, AppTable) == w.(app := w.app.(pushes := [], entry := w.app.entry.(ackd := p.ackd, minWindow := p.minWindow)))
  {}

  /** The congestion window does not get smaller, and 65535 times four bytes of the peer's window hold it. */
  lemma {:induction false} StaysOpen(m: SegmentMeta, e: SarEntry)
    requires WideOpen(e.flow)
    ensures WideOpen(FlowAfter(m, e)) && MinWindow(0xFFFF, 2, FlowAfter(m, e).cong) >= CONGESTION_WINDOW_MAX
  {
    assert Pow2(2) == 4;
    assert Mod18(0xFFFF * 4) == 0xFFFF * 4;
  }

  /** A timer fires: everything unacknowledged, one segment, is read back. */
  function TimerRead(w: Win): Win { Apply(Apply(w, TakeRt(2)), EngTable) }

  lemma {:induction false} TimerRound(w: Win)
    requires w.eng == Eng([], Idle, [], [])
    ensures AllQuiet(w, TakeRt(2)) && AllQuiet(Apply(w, TakeRt(2)), EngTable)
    ensures TimerRead(w) == w.(eng := Eng([], Resend(2), [], [SarReply(w.sar)]))
  {}

  lemma {:induction false} ResendRound(w: Win)
    requires w.eng == Eng([], Resend(2), [], [SarReply(w.sar)]) && w.sar.ackd == 0 && w.sar.notAckd == N && !w.sar.finSent
    ensures var v := Apply(w, StartResend);
            && AllQuiet(w, StartResend) && Acceptable(v, ResendSegment) && LabelOf(v, ResendSegment) == ReadBack([Segment(0, 0, N)])
            && Apply(v, ResendSegment) == w.(eng := Eng([], Idle, [], []))
  {
    assert Mod18(Mod18(N) - Mod18(0)) == N;
  }

  // ----- steps of the system -----

  ghost predicate CanReach(t: Sys, h: SysGhost) { exists r :: Reached(r, t, h) }

  function Onward(r: Trace, a: Step): Trace
    requires IsRun(r)
  {
    var n := |r.steps|;
    Trace(r.states + [SysStep(r.states[n], a)], r.counters + [SysNext(r.counters[n], r.states[n], a)], r.steps + [a])
  }

  lemma {:induction false} OneMore(t: Sys, h: SysGhost, a: Step)
    requires CanReach(t, h) && Allowed(t, a)
    ensures CanReach(SysStep(t, a), SysNext(h, t, a))
  {
    var r :| Reached(r, t, h);
    var q := Onward(r, a);
    forall i | 0 <= i < |q.steps| ensures Moves(q, i) { if i < |r.steps| { assert Moves(r, i); } }
    assert Reached(q, SysStep(t, a), SysNext(h, t, a));
  }

  /** No acknowledgement was taken and no second segment read back so far. */
  predicate Early(g: Ghost) { g.rx.acked == 0 && g.eng.rest == 0 }

  lemma {:induction false} QuietStep(t: Sys, h: SysGhost, a: Action) returns (g: Ghost)
    requires CanReach(t, h) && AllQuiet(t.win, a)
    ensures CanReach(Sys(Apply(t.win, a), t.data), SysGhost(g, h.data))
    ensures g.eng.nextPending == h.win.eng.nextPending && (Early(h.win) && !a.RxTable? && !a.ResendSegment? ==> Early(g))
  {
    g := TxWindow.Next(h.win, t.win, a);
    OneMore(t, h, Window(a, [], []));
    QuietCounters(h.win, t.win, a);
  }

  lemma {:induction false} QuietCounters(g: Ghost, w: Win, a: Action)
    requires LabelOf(w, a).Quiet?
    ensures TxWindow.Next(g, w, a).eng.nextPending == g.eng.nextPending
    ensures Early(g) && !a.RxTable? && !a.ResendSegment? ==> Early(TxWindow.Next(g, w, a))
  {}

  lemma {:induction false} QuietSteps(t: Sys, h: SysGhost, a: Action, b: Action) returns (g: Ghost)
    requires CanReach(t, h) && AllQuiet(t.win, a) && AllQuiet(Apply(t.win, a), b)
    ensures CanReach(Sys(Apply(Apply(t.win, a), b), t.data), SysGhost(g, h.data))
    ensures g.eng.nextPending == h.win.eng.nextPending
    ensures Early(h.win) && !a.RxTable? && !a.ResendSegment? && !b.RxTable? && !b.ResendSegment? ==> Early(g)
  {
    g := QuietStep(t, h, a);
    g := QuietStep(Sys(Apply(t.win, a), t.data), SysGhost(g, h.data), b);
  }

  // ----- writes and segments -----

  function Fill(b: Byte, n: Word16): Payload { seq(n, _ => b) }
  function Everywhere(b: Byte): Buffer { seq(BUFFER_SIZE, _ => b) }
  function WordsOf(b: Byte, n: Word16): seq<Word> { CircularBuffer.ReadWords(Everywhere(b), 0, n) }

  lemma {:induction false} FetchFill(b: Byte, n: Word16)
    ensures Fetch(Everywhere(b), 0, n) == Fill(b, n)
  {
    var f := Fetch(Everywhere(b), 0, n);
    forall i | 0 <= i < n ensures f[i] == Fill(b, n)[i] { assert f[i] == Everywhere(b)[Mod18(i)]; }
    assert f == Fill(b, n);
  }

  lemma {:induction false} FillPacked(b: Byte, n: Word16)
    requires 0 < n
    ensures Packed(WordsOf(b, n), Fill(b, n))
  {
    ReadWordsPacked(Everywhere(b), 0, n);
    FetchFill(b, n);
  }

  /** All that was accepted is stored. */
  predicate Settled(d: Data, h: DataGhost) { d.writes == [] && h.base == 0 && h.stored == |h.stream| }

  lemma {:induction false} AdmitData(d: Data, h: DataGhost, g: Ghost, o: Win18, p: Payload, ws: seq<Word>)
    requires d.writes == []
    ensures DataStep(d, Admitted(o, |p|), p, ws) == d.(writes := [Write(o, p, ws)], bypass := d.bypass + p)
    ensures DataNext(h, g, Admitted(o, |p|), p) == h.(stream := h.stream + p)
  {
    assert [] + [Write(o, p, ws)] == [Write(o, p, ws)];
  }

  lemma {:induction false} SendData(d: Data, h: DataGhost, g: Ghost, n: Seq32, p: Payload, ws: seq<Word>)
    requires Packed(ws, p) && d.bypass == p && |p| == N
    ensures Packed(ws, Take(d.bypass, N))
    ensures DataStep(d, Sent(n, N), [], ws) == d.(bypass := [], sent := d.sent + [Packet(n, ws, false)])
    ensures DataNext(h, g, Sent(n, N), []) == h.(sentAt := h.sentAt + [NewAt(g.eng.nextPending, N)])
  {
    assert d.bypass[..N] == d.bypass && d.bypass[N..] == [];
  }

  const IDLE: Writer := W.Writer(W.WaitCmd, Cmd(0, 0), 0, 0, 0, 0, ZERO)

  lemma {:induction false} AdmitStep(t: Sys, h: SysGhost, o: Win18, p: Payload, ws: seq<Word>) returns (g: Ghost)
    requires CanReach(t, h) && t.data.writes == [] && Packed(ws, p)
    requires LabelOf(t.win, Decide(Established)) == Admitted(o, |p|) && Acceptable(t.win, Decide(Established))
    ensures CanReach(Sys(Apply(t.win, Decide(Established)), t.data.(writes := [Write(o, p, ws)], bypass := t.data.bypass + p)),
                     SysGhost(g, h.data.(stream := h.data.stream + p)))
    ensures g.eng == h.win.eng && g.rx == h.win.rx
  {
    AdmitData(t.data, h.data, h.win, o, p, ws);
    g := TxWindow.Next(h.win, t.win, Decide(Established));
    OneMore(t, h, Window(Decide(Established), p, ws));
  }

  /** The application's bytes are accepted at position m. */
  lemma {:induction false} AcceptSteps(t: Sys, h: SysGhost, e: AppEntry, a: int, m: int, p: Payload, ws: seq<Word>) returns (g: Ghost)
    requires CanReach(t, h) && t.data.writes == [] && Packed(ws, p)
    requires t.win.app == App(e, [], [], [], None) && e.ackd == Mod18(a) && e.mempt == Mod18(m)
    requires a <= m < a + BUFFER_SIZE && m + |p| - a <= e.minWindow
    ensures CanReach(Sys(t.win.(app := t.win.app.(entry := e.(mempt := Mod18(m + |p|))),
                                eng := t.win.eng.(events := t.win.eng.events + [NewData(Mod18(m), |p|)])),
                         t.data.(writes := [Write(Mod18(m), p, ws)], bypass := t.data.bypass + p)),
                     SysGhost(g, h.data.(stream := h.data.stream + p)))
    ensures g.eng.nextPending == h.win.eng.nextPending && (Early(h.win) ==> Early(g))
  {
    AskRound(t.win, e, |p|);
    g := QuietSteps(t, h, Request(|p|), AppTable);
    var w := Asked(t.win, |p|);
    AcceptRound(w, e, |p|, a, m);
    g := AdmitStep(Sys(w, t.data), SysGhost(g, h.data), Mod18(m), p, ws);
    g := QuietStep(Sys(Apply(w, Decide(Established)), t.data.(writes := [Write(Mod18(m), p, ws)], bypass := t.data.bypass + p)),
                   SysGhost(g, h.data.(stream := h.data.stream + p)), AppTable);
  }

  lemma {:induction false} SendAllowed(t: Sys, h: SysGhost, n: Seq32, p: Payload, ws: seq<Word>)
    requires Packed(ws, p) && |p| == N
    requires t.data.bypass == p && LabelOf(t.win, SendNew) == Sent(n, N) && Acceptable(t.win, SendNew)
    ensures Allowed(t, Window(SendNew, [], ws))
    ensures SysStep(t, Window(SendNew, [], ws))
            == Sys(Apply(t.win, SendNew), t.data.(bypass := [], sent := t.data.sent + [Packet(n, ws, false)]))
    ensures SysNext(h, t, Window(SendNew, [], ws)).data
            == h.data.(sentAt := h.data.sentAt + [NewAt(h.win.eng.nextPending, N)])
  {
    SendData(t.data, h.data, h.win, n, p, ws);
  }

  lemma {:induction false} SendStep(t: Sys, h: SysGhost, n: Seq32, p: Payload, ws: seq<Word>) returns (g: Ghost)
    requires Packed(ws, p) && |p| == N
    requires CanReach(t, h) && t.data.bypass == p && LabelOf(t.win, SendNew) == Sent(n, N) && Acceptable(t.win, SendNew)
    ensures CanReach(Sys(Apply(t.win, SendNew), t.data.(bypass := [], sent := t.data.sent + [Packet(n, ws, false)])),
                     SysGhost(g, h.data.(sentAt := h.data.sentAt + [NewAt(h.win.eng.nextPending, N)])))
    ensures Early(h.win) ==> Early(g)
  {
    var a := Window(SendNew, [], ws);
    SendAllowed(t, h, n, p, ws);
    g := TxWindow.Next(h.win, t.win, SendNew);
    OneMore(t, h, a);
  }

  lemma {:induction false} SendAndWrite(t: Sys, h: SysGhost, n: Seq32, p: Payload, ws: seq<Word>) returns (g: Ghost)
    requires Packed(ws, p) && |p| == N
    requires CanReach(t, h) && t.data.bypass == p && LabelOf(t.win, SendNew) == Sent(n, N) && Acceptable(t.win, SendNew)
    requires AllQuiet(Apply(t.win, SendNew), EngTable)
    ensures CanReach(Sys(SentOff(t.win), t.data.(bypass := [], sent := t.data.sent + [Packet(n, ws, false)])),
                     SysGhost(g, h.data.(sentAt := h.data.sentAt + [NewAt(h.win.eng.nextPending, N)])))
    ensures Early(h.win) ==> Early(g)
  {
    g := SendStep(t, h, n, p, ws);
    g := QuietStep(Sys(Apply(t.win, SendNew), t.data.(bypass := [], sent := t.data.sent + [Packet(n, ws, false)])),
                   SysGhost(g, h.data.(sentAt := h.data.sentAt + [NewAt(h.win.eng.nextPending, N)])), EngTable);
  }

  /** The segment is sent; its bytes are still to be stored. */
  lemma {:induction false} SendOnly(t: Sys, h: SysGhost, e: NewData, n: Seq32, p: Payload, ws: seq<Word>) returns (g: Ghost)
    requires Packed(ws, p) && |p| == N
    requires CanReach(t, h) && t.win.eng == Eng([e], Idle, [], []) && e.length == N && t.win.sar.notAckd == n && n + N < SEQ_SPACE
    requires t.data.bypass == p
    ensures CanReach(Sys(t.win.(eng := Eng([], Idle, [], []), sar := t.win.sar.(notAckd := n + N)),
                         t.data.(bypass := [], sent := t.data.sent + [Packet(n, ws, false)])),
                     SysGhost(g, h.data.(sentAt := h.data.sentAt + [NewAt(h.win.eng.nextPending, N)])))
    ensures Early(h.win) ==> Early(g)
  {
    LoadRound(t.win, e);
    g := QuietSteps(t, h, TakeNew, EngTable);
    SendRound(Loaded(t.win), e);
    g := SendAndWrite(Sys(Loaded(t.win), t.data), SysGhost(g, h.data), n, p, ws);
  }

  lemma {:induction false} StoreStep(t: Sys, h: SysGhost, w: Write) returns (m: Buffer)
    requires CanReach(t, h) && t.data.writes == [w]
    ensures CanReach(t.(data := t.data.(buffer := m, writes := [])), h.(data := h.data.(stored := h.data.stored + |w.data|)))
  {
    assert [w][1..] == [];
    OneMore(t, h, WriteBuffer(IDLE));
    m := Written(t.data.id, t.data.buffer, w, IDLE);
  }

  /** One segment, from the application to the peer and into the buffer. */
  lemma {:induction false} OneSegment(t: Sys, h: SysGhost, f: Flight, p: Payload, ws: seq<Word>) returns (u: Sys, k: SysGhost)
    requires CanReach(t, h) && Resting(t.win, f) && t.data.writes == [] && t.data.bypass == [] && Packed(ws, p) && |p| == N
    requires f.acked == f.sent && f.sent + N < SEQ_SPACE && f.minWindow >= N
    ensures CanReach(u, k) && Resting(u.win, f.(sent := f.sent + N)) && (Early(h.win) ==> Early(k.win))
    ensures u.data == t.data.(buffer := u.data.buffer, sent := t.data.sent + [Packet(f.sent, ws, false)])
    ensures k.data == h.data.(stream := h.data.stream + p, stored := h.data.stored + N,
                              sentAt := h.data.sentAt + [NewAt(h.win.eng.nextPending, N)])
  {
    u, k := Unstored(t, h, f, p, ws);
    var m := StoreStep(u, k, Write(Mod18(f.sent), p, ws));
    u := u.(data := u.data.(buffer := m, writes := []));
    k := k.(data := k.data.(stored := k.data.stored + N));
  }

  /** The same before the write is done. */
  lemma {:induction false} Unstored(t: Sys, h: SysGhost, f: Flight, p: Payload, ws: seq<Word>) returns (u: Sys, k: SysGhost)
    requires CanReach(t, h) && Resting(t.win, f) && t.data.writes == [] && t.data.bypass == [] && Packed(ws, p) && |p| == N
    requires f.acked == f.sent && f.sent + N < SEQ_SPACE && f.minWindow >= N
    ensures CanReach(u, k) && Resting(u.win, f.(sent := f.sent + N)) && (Early(h.win) ==> Early(k.win))
    ensures u.data == t.data.(writes := [Write(Mod18(f.sent), p, ws)], sent := t.data.sent + [Packet(f.sent, ws, false)])
    ensures k.data == h.data.(stream := h.data.stream + p, sentAt := h.data.sentAt + [NewAt(h.win.eng.nextPending, N)])
  {
    var o, e := Mod18(f.sent), t.win.app.entry;
    var g := AcceptSteps(t, h, e, f.acked, f.sent, p, ws);
    assert [] + p == p && [] + [NewData(o, N)] == [NewData(o, N)];
    var v := t.win.(app := t.win.app.(entry := e.(mempt := Mod18(f.sent + N))), eng := t.win.eng.(events := [NewData(o, N)]));
    var d := t.data.(writes := [Write(o, p, ws)], bypass := p);
    g := SendOnly(Sys(v, d), SysGhost(g, h.data.(stream := h.data.stream + p)), NewData(o, N), f.sent, p, ws);
    u := Sys(v.(eng := Eng([], Idle, [], []), sar := v.sar.(notAckd := f.sent + N)),
             d.(bypass := [], sent := d.sent + [Packet(f.sent, ws, false)]));
    k := SysGhost(g, h.data.(stream := h.data.stream + p, sentAt := h.data.sentAt + [NewAt(h.win.eng.nextPending, N)]));
  }

  /** The segment is acknowledged. */
  lemma {:induction false} Acknowledged(t: Sys, h: SysGhost, f: Flight) returns (u: Sys, k: SysGhost, e: Flight)
    requires CanReach(t, h) && Resting(t.win, f) && f.acked <= f.sent < SEQ_SPACE
    ensures CanReach(u, k) && Resting(u.win, e) && u.data == t.data && k.data == h.data
    ensures e.acked == e.sent == f.sent && e.minWindow >= CONGESTION_WINDOW_MAX
  {
    var w, m := t.win, Ack(f.sent);
    AckTakeRound(w, m);
    var g := QuietSteps(t, h, RxTake(m), RxTable);
    var v := AckTaken(w, m);
    AckWriteRound(v, m, f.sent);
    g := QuietSteps(Sys(v, t.data), SysGhost(g, h.data), Respond(), RxTable);
    var x := AckWritten(v);
    AckPushRound(x, x.app.pushes[0]);
    g := QuietStep(Sys(x, t.data), SysGhost(g, h.data), AppTable);
    StaysOpen(m, w.sar);
    u, k := Sys(Apply(x, AppTable), t.data), SysGhost(g, h.data);
    e := Flight(f.sent, f.sent, MinWindow(0xFFFF, 2, FlowAfter(m, w.sar).cong), FlowAfter(m, w.sar));
  }

  /** Before the acknowledgement the timer fires; its read command waits in its FIFO. */
  lemma {:induction false} TimerFires(t: Sys, h: SysGhost, f: Flight) returns (k: SysGhost)
    requires CanReach(t, h) && Resting(t.win, f) && f.acked == 0 && f.sent == N && Early(h.win) && t.data.readCmds == [] && h.data.readAt == []
    ensures CanReach(t.(data := t.data.(readCmds := [Segment(0, 0, N)])), k) && k.data == h.data.(readAt := [0])
  {
    var w := t.win;
    TimerRound(w);
    var g := QuietSteps(t, h, TakeRt(2), EngTable);
    var v := TimerRead(w);
    ResendRound(v);
    g := QuietStep(Sys(v, t.data), SysGhost(g, h.data), StartResend);
    k := ReadBackStep(Sys(Apply(v, StartResend), t.data), SysGhost(g, h.data));
    assert w == w.(eng := Eng([], Idle, [], []));
  }

  lemma {:induction false} ReadBackStep(t: Sys, h: SysGhost) returns (k: SysGhost)
    requires CanReach(t, h) && LabelOf(t.win, ResendSegment) == ReadBack([Segment(0, 0, N)]) && Acceptable(t.win, ResendSegment)
    requires t.data.readCmds == [] && h.data.readAt == [] && h.win.eng.rest == 0
    ensures CanReach(Sys(Apply(t.win, ResendSegment), t.data.(readCmds := [Segment(0, 0, N)])), k) && k.data == h.data.(readAt := [0])
  {
    var a := Window(ResendSegment, [], []);
    k := SysNext(h, t, a);
    assert seq(|[Segment(0, 0, N)]|, _ => h.win.eng.rest) == [0];
    assert t.data.readCmds + [Segment(0, 0, N)] == [Segment(0, 0, N)] && h.data.readAt + [0] == [0];
    OneMore(t, h, a);
  }

  // ----- the run -----

  /** Everything below N is acknowledged, k further writes are accepted, and none of them was sent yet. */
  predicate Waiting(w: Win, minWindow: Win18, k: nat) {
    minWindow >= CONGESTION_WINDOW_MAX && w.app == App(AppEntry(Mod18(N), Mod18(N + k * H), minWindow), [], [], [], None)
  }

  /** The first segment, sent in packet p, holds ones, all later writes twos; the read of the first is still queued, and nothing else was
      sent. */
  predicate Overrunning(t: Sys, h: SysGhost, k: nat, p: Packet) {
    && Settled(t.data, h.data) && t.data.id == 0 && h.data.stored == N + k * H
    && (forall i :: 0 <= i < |h.data.stream| ==> h.data.stream[i] == if i < N then 1 else 2)
    && t.data.readCmds == [Segment(0, 0, N)] && h.data.readAt == [0]
    && t.data.sent == [p] && h.data.sentAt == [NewAt(0, N)]
  }

  /** One more write, accepted and stored. */
  lemma {:induction false} NextWrite(t: Sys, h: SysGhost, minWindow: Win18, k: nat, p: Packet, ws: seq<Word>) returns (u: Sys, z: SysGhost)
    requires CanReach(t, h) && Waiting(t.win, minWindow, k) && Overrunning(t, h, k, p) && k < 127 && Packed(ws, Fill(2, H))
    ensures CanReach(u, z) && Waiting(u.win, minWindow, k + 1) && Overrunning(u, z, k + 1, p)
  {
    var data := Fill(2, H);
    var g := AcceptSteps(t, h, t.win.app.entry, N, N + k * H, data, ws);
    var w := Write(Mod18(N + k * H), data, ws);
    u := Sys(t.win.(app := t.win.app.(entry := t.win.app.entry.(mempt := Mod18(N + k * H + H))),
                    eng := t.win.eng.(events := t.win.eng.events + [NewData(Mod18(N + k * H), H)])),
             t.data.(writes := [w], bypass := t.data.bypass + data));
    z := SysGhost(g, h.data.(stream := h.data.stream + data));
    var m := StoreStep(u, z, w);
    u := u.(data := u.data.(buffer := m, writes := []));
    z := z.(data := z.data.(stored := z.data.stored + H));
  }

  lemma {:induction false} Writes(t: Sys, h: SysGhost, minWindow: Win18, k: nat, p: Packet, ws: seq<Word>) returns (u: Sys, z: SysGhost)
    requires CanReach(t, h) && Waiting(t.win, minWindow, 0) && Overrunning(t, h, 0, p) && k <= 127 && Packed(ws, Fill(2, H))
    ensures CanReach(u, z) && Waiting(u.win, minWindow, k) && Overrunning(u, z, k, p)
  {
    if k == 0 {
      u, z := t, h;
    } else {
      u, z := Writes(t, h, minWindow, k - 1, p, ws);
      u, z := NextWrite(u, z, minWindow, k - 1, p, ws);
    }
  }

  // ----- from the start -----

  /** The flow is that of a session whose congestion window has grown to its limit; what follows is counted from its next byte. */
  const START: Win := Win(SarEntry(0, 0, 0, Flow(0xFFFF, 2, CONGESTION_WINDOW_MAX, BUFFER_SIZE - 1, 0, false), false, false),
                          App(AppEntry(0, 0, CONGESTION_WINDOW_MAX), [], [], [], None), Eng([], Idle, [], []), Rx(None, [], []))
  const COUNTERS: Ghost := Ghost(AppGhost(0, [], 0), EngGhost(0, 0, 0), RxGhost(0, 0, 0), 0)

  function StartFlight(): Flight { Flight(0, 0, CONGESTION_WINDOW_MAX, START.sar.flow) }

  lemma {:induction false} StartReached() returns (t: Sys, h: SysGhost)
    ensures CanReach(t, h) && Resting(t.win, StartFlight()) && Early(h.win) && h.win.eng.nextPending == 0
    ensures t.data == Data(0, Everywhere(0), [], [], [], []) && h.data == DataGhost(0, [], 0, [], [])
  {
    t, h := Sys(START, Data(0, Everywhere(0), [], [], [], [])), SysGhost(COUNTERS, DataGhost(0, [], 0, [], []));
    assert Reached(Trace([t], [h], []), t, h);
  }

  /** The first segment is sent and stored, read back by the timer, and acknowledged. */
  lemma {:induction false} FirstSegment(ws: seq<Word>) returns (t: Sys, h: SysGhost, minWindow: Win18)
    requires Packed(ws, Fill(1, N))
    ensures CanReach(t, h) && Waiting(t.win, minWindow, 0) && Overrunning(t, h, 0, Packet(0, ws, false))
  {
    t, h := StartReached();
    t, h := OneSegment(t, h, StartFlight(), Fill(1, N), ws);
    var f := StartFlight().(sent := N);
    h := TimerFires(t, h, f);
    t := t.(data := t.data.(readCmds := [Segment(0, 0, N)]));
    t, h, f := Acknowledged(t, h, f);
    minWindow := f.minWindow;
  }

  /** At last the queued read is done. */
  lemma {:induction false} LateRead(t: Sys, h: SysGhost, p: Packet) returns (u: Sys, k: SysGhost)
    requires CanReach(t, h) && Overrunning(t, h, 127, p)
    ensures CanReach(u, k) && k.data.stream == h.data.stream && k.data.base == 0 && u.data.id == 0
    ensures u.data.sent == [p, Packet(0, TxFidelity.ReadWords(t.data, Segment(0, 0, N), ZERO), true)]
    ensures k.data.sentAt == [NewAt(0, N), At(0, N, h.win.rx.acked, N + 127 * H)]
  {
    u, k := SysStep(t, ReadBuffer(ZERO)), SysNext(h, t, ReadBuffer(ZERO));
    OneMore(t, h, ReadBuffer(ZERO));
  }

  /** The first half of the segment's bytes was overwritten by the last write, the second half was not. */
  lemma {:induction false} Overwritten(x: nat)
    requires x < N
    ensures Latest(N + 127 * H, x) == if x < H then BUFFER_SIZE + x else x
  {
    assert N + 127 * H == BUFFER_SIZE + H;
    if x < H {
      assert Mod18(BUFFER_SIZE + H - 1 - x) == H - 1 - x;
    } else {
      assert Mod18(BUFFER_SIZE + H - 1 - x) == BUFFER_SIZE + H - 1 - x;
    }
  }

  /** A run of session 0 in which the only packet repeated carries other bytes than the first time: one segment of ones is sent, the
      timer has it read back, and it is acknowledged; the application fills the window that this opens with 127 writes of twos, which are
      stored and wait to be sent; only then the queued read is done, and finds twos in the first half. */
  lemma {:induction false} OverrunDiffers() returns (r: Trace, t: Sys, h: SysGhost)
    ensures Reached(r, t, h) && |t.data.sent| == |h.data.sentAt| == 2
    ensures var p, q := t.data.sent[0], t.data.sent[1];
            && !p.again && q.again && p.seqNumb == q.seqNumb == 0
            && Packed(p.words, Fill(1, N)) && Packed(q.words, Fill(2, H) + Fill(1, N - H))
            && h.data.sentAt[0].pos == h.data.sentAt[1].pos == 0 && h.data.sentAt[1].len == N
            && Readable(t.data.id, q.again, h.data.sentAt[1])
  {
    FillPacked(1, N);
    FillPacked(2, H);
    r, t, h := OverrunBy(WordsOf(1, N), WordsOf(2, H));
  }

  lemma {:induction false} OverrunBy(ones: seq<Word>, twos: seq<Word>) returns (r: Trace, t: Sys, h: SysGhost)
    requires Packed(ones, Fill(1, N)) && Packed(twos, Fill(2, H))
    ensures Reached(r, t, h) && |t.data.sent| == |h.data.sentAt| == 2
    ensures var p, q := t.data.sent[0], t.data.sent[1];
            && !p.again && q.again && p.seqNumb == q.seqNumb == 0
            && p.words == ones && Packed(q.words, Fill(2, H) + Fill(1, N - H))
            && h.data.sentAt[0].pos == h.data.sentAt[1].pos == 0 && h.data.sentAt[1].len == N
            && Readable(t.data.id, q.again, h.data.sentAt[1])
  {
    var p := Packet(0, ones, false);
    var u, z, minWindow := FirstSegment(ones);
    u, z := Writes(u, z, minWindow, 127, p, twos);
    t, h := LateRead(u, z, p);
    r :| Reached(r, t, h);
    LateBytes(r, t, h);
  }

  lemma {:induction false} LateBytes(r: Trace, t: Sys, h: SysGhost)
    requires Reached(r, t, h) && |t.data.sent| == |h.data.sentAt| == 2 && t.data.sent[1].again && t.data.id == 0
    requires h.data.base == 0 && h.data.sentAt[1].pos == 0 && h.data.sentAt[1].len == N && h.data.sentAt[1].stored == N + 127 * H
    requires forall i :: 0 <= i < |h.data.stream| ==> h.data.stream[i] == if i < N then 1 else 2
    ensures Readable(0, true, h.data.sentAt[1]) && Packed(t.data.sent[1].words, Fill(2, H) + Fill(1, N - H))
  {
    var b, c := Bytes(t.data.sent[1].words, N), Fill(2, H) + Fill(1, N - H);
    assert Mod18(0) == 0;
    forall x | 0 <= x < N ensures b[x] == c[x] {
      ByteSent(r, t, h, 1, x);
      Overwritten(x);
    }
    ByteSent(r, t, h, 1, 0);
    assert b == c;
  }

  // ----- the other way -----

  /** A read done ahead of the write of its range, in the first moments of the session: the packet read back holds what the buffer
      held before. */
  lemma {:induction false} EarlyRead() returns (r: Trace, t: Sys, h: SysGhost)
    ensures Reached(r, t, h) && |t.data.sent| == 2
    ensures var p, q := t.data.sent[0], t.data.sent[1];
            !p.again && q.again && p.seqNumb == q.seqNumb == 0 && Packed(p.words, Fill(1, N)) && Packed(q.words, Fill(0, N))
  {
    FillPacked(1, N);
    r, t, h := EarlyBy(WordsOf(1, N));
  }

  lemma {:induction false} EarlyBy(ws: seq<Word>) returns (r: Trace, t: Sys, h: SysGhost)
    requires Packed(ws, Fill(1, N))
    ensures Reached(r, t, h) && |t.data.sent| == 2 && t.data.sent[0] == Packet(0, ws, false)
    ensures var q := t.data.sent[1]; q.again && q.seqNumb == 0 && Packed(q.words, Fill(0, N))
  {
    var u, k := SentUnstored(ws);
    k := TimerFires(u, k, StartFlight().(sent := N));
    u := u.(data := u.data.(readCmds := [Segment(0, 0, N)]));
    t, h := ReadFirst(u, k);
    r :| Reached(r, t, h);
  }

  lemma {:induction false} SentUnstored(ws: seq<Word>) returns (u: Sys, k: SysGhost)
    requires Packed(ws, Fill(1, N))
    ensures CanReach(u, k) && Resting(u.win, StartFlight().(sent := N)) && Early(k.win) && u.data.readCmds == [] && k.data.readAt == []
    ensures u.data.id == 0 && u.data.buffer == Everywhere(0) && u.data.sent == [Packet(0, ws, false)]
  {
    var t, h := StartReached();
    u, k := Unstored(t, h, StartFlight(), Fill(1, N), ws);
  }

  lemma {:induction false} ReadFirst(u: Sys, k: SysGhost) returns (t: Sys, h: SysGhost)
    requires CanReach(u, k) && u.data.readCmds == [Segment(0, 0, N)] && u.data.id == 0 && u.data.buffer == Everywhere(0)
    ensures CanReach(t, h) && |t.data.sent| == |u.data.sent| + 1 && t.data.sent[..|u.data.sent|] == u.data.sent
    ensures var q := t.data.sent[|u.data.sent|]; q.again && q.seqNumb == 0 && Packed(q.words, Fill(0, N))
  {
    OneMore(u, k, ReadBuffer(ZERO));
    t, h := SysStep(u, ReadBuffer(ZERO)), SysNext(k, u, ReadBuffer(ZERO));
    FetchPacked(u.data);
  }

  lemma {:induction false} FetchPacked(d: Data)
    requires d.id == 0 && d.buffer == Everywhere(0)
    ensures Packed(TxFidelity.ReadWords(d, Segment(0, 0, N), ZERO), Fill(0, N))
  {
    FetchFill(0, N);
    ReadIsFetch(d, Segment(0, 0, N), ZERO);
  }
}
