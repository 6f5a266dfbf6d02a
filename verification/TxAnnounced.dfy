/** The window that application writes are admitted with, against what the peer announced: beside the transmit window, the
    announcement that belongs to each acknowledgement on its way from the segment to the decision. */
module TxAnnounced {
  import opened ToeTypes
  import opened TcpFsm
  import opened TxTables
  import opened TxWindow

  /** An acknowledgement with the window announced beside it, in bytes, and the congestion window after it; exact if the code scales
      the window as the peer meant it. */
  datatype Told = Told(ack: Seq32, window: nat, cong: nat, exact: bool)

  /** The one the application table knows, those on their way to it, the one last read, the one on its way to tx_sar_table, and the one
      held there. */
  datatype Ann = Ann(known: Told, pushed: seq<Told>, read: Told, pending: Told, held: Told)

  /** The window of a segment, as its sender means it: the scale of the session, but none on a SYN (RFC 7323, section 2.2). */
  function Meant(m: SegmentMeta, scale: Bits4): nat { m.winSize * Pow2(MeantShift(m, scale)) }

  function MeantShift(m: SegmentMeta, scale: Bits4): Bits4 { if m.syn then 0 else scale }

  predicate Written(w: Win, a: Action) {
    a.RxRespond? && w.rx.cur.Some? && w.rx.rsp != [] && TxSarWrites(w.rx.cur.value, a.st, a.rxSar, w.rx.rsp[0], a.junkShift) != []
  }

  function Heard(m: SegmentMeta, scale: Bits4, q: TxSarReq): Told
    requires q.WriteTx?
  {
    Told(m.ackNumb, Meant(m, scale), 0, q.txWinShift == MeantShift(m, scale))
  }

  /** Exactly which segments are scaled as they are meant: every ACK; a FIN only by chance of the unassigned shift; and a SYN or
      SYN-ACK only if it scales nothing. */
  lemma {:induction false} ScaledAsMeant(m: SegmentMeta, st: SessionState, rx: RxSarEntry, tx: TxSarReply, junk: Bits4)
    requires TxSarWrites(m, st, rx, tx, junk) != []
    ensures |TxSarWrites(m, st, rx, tx, junk)| == 1 && TxSarWrites(m, st, rx, tx, junk)[0].WriteTx?
    ensures TxSarWrites(m, st, rx, tx, junk)[0].recvWindow == m.winSize
    ensures Heard(m, tx.txWinShift, TxSarWrites(m, st, rx, tx, junk)[0]).exact
            <==> IsAck(m) || (IsFinAck(m) && junk == tx.txWinShift) || (m.syn && m.recvWindowScale == 0)
  {
  }

  /** The scale kept for the session: the peer's own from a SYN-ACK; from a SYN the code's own shift, which is the peer's exactly if
      that is 0 or 2. Other segments leave the scale alone. */
  lemma {:induction false} ScaleKept(e: SarEntry, m: SegmentMeta, st: SessionState, rx: RxSarEntry, tx: TxSarReply, junk: Bits4)
    requires TxSarWrites(m, st, rx, tx, junk) != []
    ensures var f := SarAfterRx(e, TxSarWrites(m, st, rx, tx, junk)[0]).flow;
            && (IsSynAck(m) ==> f.winShift == m.recvWindowScale)
            && (IsSyn(m) ==> (f.winShift == m.recvWindowScale <==> m.recvWindowScale == 0 || m.recvWindowScale == 2))
            && (!m.syn ==> f.winShift == e.flow.winShift)
  {
  }

  function AnnNext(n: Ann, w: Win, a: Action): Ann {
    match a
    case AppTable =>
      if w.app.pushes != [] && n.pushed != [] then n.(known := n.pushed[0], pushed := n.pushed[1..])
      else if w.app.pushes == [] && w.app.queries != [] && w.app.queries[0].ReadApp? then n.(read := n.known)
      else n
    case RxTable =>
      if w.eng.req == [] && w.rx.req != [] && w.rx.req[0].WriteTx? then
        n.(pushed := n.pushed + [n.pending.(cong := RxTableStep(w).sar.flow.cong)], held := n.pending)
      else n
    case RxRespond(st, rx, junk) =>
      if Written(w, a) then
        n.(pending := Heard(w.rx.cur.value, w.sar.flow.winShift, TxSarWrites(w.rx.cur.value, st, rx, w.rx.rsp[0], junk)[0]))
      else n
    case _ => n
  }

  // ----- the invariant -----

  /** A window to admit with, and what it was made from. */
  predicate Within(window: Win18, t: Told) {
    && window <= t.cong
    && (t.exact ==>
          window <= t.window && (t.window < BUFFER_SIZE ==> window == if t.cong < t.window then t.cong else t.window))
  }

  predicate PushesWithin(pushes: seq<AckPush>, pushed: seq<Told>, at: seq<int>) {
    && |pushes| == |pushed| == |at|
    && forall i :: 0 <= i < |pushed| ==> Within(pushes[i].minWindow, pushed[i]) && pushed[i].ack == Mod32(at[i])
  }

  predicate WriteIs(req: seq<TxSarReq>, t: Told) {
    req != [] && req[0].WriteTx? ==>
      && t.ack == req[0].ackd && (t.exact ==> t.window == req[0].recvWindow * Pow2(req[0].txWinShift))
  }

  /** A write that does not carry the scale uses the table's. */
  predicate ShiftIs(req: seq<TxSarReq>, t: Told, f: Flow) {
    req != [] && req[0].WriteTx? && t.exact ==> req[0].shiftWrite || req[0].txWinShift == f.winShift
  }

  /** The table's window is the announced one. */
  predicate HeldIs(f: Flow, t: Told) { t.exact ==> f.recvWindow * Pow2(f.winShift) == t.window }

  predicate AnnOk(w: Win, g: Ghost, n: Ann) {
    && Within(w.app.entry.minWindow, n.known) && n.known.ack == Mod32(g.app.known)
    && PushesWithin(w.app.pushes, n.pushed, g.app.pushed)
    && (w.app.replies != [] ==> Within(w.app.replies[0].minWindow, n.read) && n.read.ack == Mod32(g.app.read))
    && WriteIs(w.rx.req, n.pending) && ShiftIs(w.rx.req, n.pending, w.sar.flow) && HeldIs(w.sar.flow, n.held)
    && (w.rx.rsp != [] ==> w.rx.rsp[0].txWinShift == w.sar.flow.winShift)
  }

  lemma {:induction false} AppTableAnn(w: Win, g: Ghost, n: Ann)
    requires Inv(w, g) && AnnOk(w, g, n)
    ensures AnnOk(Apply(w, AppTable), Next(g, w, AppTable), AnnNext(n, w, AppTable))
  {
    var v, h, k := Apply(w, AppTable), Next(g, w, AppTable), AnnNext(n, w, AppTable);
    if w.app.pushes != [] {
      assert !w.app.pushes[0].init;
      assert PushesWithin(v.app.pushes, k.pushed, h.app.pushed);
    }
  }

  lemma {:induction false} PushWithin(e: SarEntry, q: TxSarReq, t: Told)
    requires q.WriteTx? && t.ack == q.ackd && (t.exact ==> t.window == q.recvWindow * Pow2(q.txWinShift))
    ensures PushAfterRx(q) != [] && Within(PushAfterRx(q)[0].minWindow, t.(cong := SarAfterRx(e, q).flow.cong))
  {
    MinWindowIs(q.recvWindow, q.txWinShift, q.congWindow);
  }

  lemma {:induction false} RxTableAnn(w: Win, g: Ghost, n: Ann)
    requires Inv(w, g) && AnnOk(w, g, n)
    ensures AnnOk(Apply(w, RxTable), Next(g, w, RxTable), AnnNext(n, w, RxTable))
  {
    if w.eng.req == [] && w.rx.req != [] && w.rx.req[0].WriteTx? {
      PushWithin(w.sar, w.rx.req[0], n.pending);
    }
  }

  lemma {:induction false} RxRespondAnn(w: Win, g: Ghost, n: Ann, a: Action)
    requires Inv(w, g) && AnnOk(w, g, n) && a.RxRespond? && Acceptable(w, a)
    ensures AnnOk(Apply(w, a), Next(g, w, a), AnnNext(n, w, a))
  {
    if Written(w, a) {
      ScaledAsMeant(w.rx.cur.value, a.st, a.rxSar, w.rx.rsp[0], a.junkShift);
    }
  }

  lemma {:induction false} AnnStep(w: Win, g: Ghost, n: Ann, a: Action)
    requires Inv(w, g) && AnnOk(w, g, n) && Acceptable(w, a)
    ensures AnnOk(Apply(w, a), Next(g, w, a), AnnNext(n, w, a))
  {
    match a
    case AppTable => AppTableAnn(w, g, n);
    case RxTable => RxTableAnn(w, g, n);
    case RxRespond(_, _, _) => RxRespondAnn(w, g, n, a);
    case EngTable => EngTableAnn(w, g, n);
    case RxTake(_) =>
    case Request(_) => ClientAnn(w, g, n, a);
    case Decide(_) => ClientAnn(w, g, n, a);
    case _ => EngEffect(w, g, a);
  }

  lemma {:induction false} ClientAnn(w: Win, g: Ghost, n: Ann, a: Action)
    requires AnnOk(w, g, n) && (a.Request? || a.Decide?)
    requires |w.app.replies| <= 1
    ensures AnnOk(Apply(w, a), Next(g, w, a), AnnNext(n, w, a))
  {
    var v := Apply(w, a);
    assert v.app.entry == w.app.entry && v.app.pushes == w.app.pushes && v.rx == w.rx && v.sar == w.sar;
    assert Next(g, w, a).app == g.app && AnnNext(n, w, a) == n;
  }

  lemma {:induction false} EngTableAnn(w: Win, g: Ghost, n: Ann)
    requires Inv(w, g) && AnnOk(w, g, n)
    ensures AnnOk(Apply(w, EngTable), Next(g, w, EngTable), n)
  {
    if w.eng.req != [] {
      EngTableOk(w, g);
      EngineKeepsScale(w.sar, w.eng.req[0]);
    }
  }

  lemma {:induction false} EngineKeepsScale(e: SarEntry, q: EngQuery)
    ensures SarAfterEng(e, q).flow.winShift == e.flow.winShift && SarAfterEng(e, q).flow.recvWindow == e.flow.recvWindow
  {
  }

  // ----- runs -----

  /** What the handshake left: a window, but no announcement by an ACK yet. */
  function Unannounced(window: Win18, ack: int): Told { Told(Mod32(ack), window, window, false) }

  function AnnStart(w: Win, g: Ghost): Ann {
    var k := Unannounced(w.app.entry.minWindow, g.app.known);
    Ann(k, if w.app.pushes == [] || g.app.pushed == [] then [] else [Unannounced(w.app.pushes[0].minWindow, g.app.pushed[0])], k, k, k)
  }

  function AnnRun(w: Win, g: Ghost, acts: seq<Action>): Ann
    decreases |acts|
  {
    if acts == [] then AnnStart(w, g) else AnnNext(AnnRun(w, g, acts[..|acts|-1]), Run(w, acts[..|acts|-1]), acts[|acts|-1])
  }

  lemma {:induction false} AnnInvRun(w: Win, g: Ghost, base: int, acts: seq<Action>)
    requires Initial(w, g, base) && AcceptableRun(w, acts)
    ensures Inv(Run(w, acts), RunGhost(w, g, acts)) && AnnOk(Run(w, acts), RunGhost(w, g, acts), AnnRun(w, g, acts))
    decreases |acts|
  {
    InvRun(w, g, base, acts);
    if acts != [] {
      var p := acts[..|acts|-1];
      AnnInvRun(w, g, base, p);
      AnnStep(Run(w, p), RunGhost(w, g, p), AnnRun(w, g, p), acts[|acts|-1]);
    }
  }

  /** The last byte admitted, from the acknowledgement that the decision read on. */
  predicate FitsIn(end: int, ack: int, t: Told) {
    && t.ack == Mod32(ack) && end <= ack + t.cong && (t.exact ==> end <= ack + t.window)
  }

  /** Over any run: an admitted write ends at or before the acknowledgement that was read for it plus the congestion window; and if
      that acknowledgement came with an ACK segment, at or before what the peer announced with it. */
  lemma {:induction false} AdmittedWithinAnnounced(w: Win, g: Ghost, base: int, acts: seq<Action>, st: SessionState)
    requires Initial(w, g, base) && AcceptableRun(w, acts) && Decides(Run(w, acts).app, st)
    requires Run(w, acts).app.waiting.value != 0
    ensures var v, h, n := Run(w, acts), RunGhost(w, g, acts), AnnRun(w, g, acts);
            && h.app.read <= h.app.known <= h.rx.acked
            && FitsIn(h.written + v.app.waiting.value, h.app.read, n.read)
  {
    AnnInvRun(w, g, base, acts);
    var v, h := Run(w, acts), RunGhost(w, g, acts);
    Bounds(v, h);
    DecideOk(v.app, st, h.app, h.rx.acked, h.written);
  }

  /** What the TX engine reads in any reachable state is made from the newest announcement and the table's congestion window. */
  lemma {:induction false} EngineReadsNewest(w: Win, g: Ghost, base: int, acts: seq<Action>)
    requires Initial(w, g, base) && AcceptableRun(w, acts)
    ensures var v, n := Run(w, acts), AnnRun(w, g, acts);
            Within(SarReply(v.sar).minWindow, n.held.(cong := v.sar.flow.cong))
  {
    AnnInvRun(w, g, base, acts);
    var f := Run(w, acts).sar.flow;
    MinWindowIs(f.recvWindow, f.winShift, f.cong);
  }

  /** And no write that fits is refused: with an announcement below 2^WINDOW_BITS the decision is exactly the test against the
      smaller of the announced and the congestion window. */
  lemma {:induction false} AdmittedExactly(w: Win, g: Ghost, base: int, acts: seq<Action>, st: SessionState)
    requires Initial(w, g, base) && AcceptableRun(w, acts)
    requires Run(w, acts).app.waiting.Some? && Run(w, acts).app.replies != []
    requires AnnRun(w, g, acts).read.exact && AnnRun(w, g, acts).read.window < BUFFER_SIZE
    ensures var v, h, n := Run(w, acts), RunGhost(w, g, acts), AnnRun(w, g, acts);
            Decides(v.app, st) <==>
            st.Established? && (v.app.waiting.value == 0 || FitsIn(h.written + v.app.waiting.value, h.app.read, n.read))
  {
    AnnInvRun(w, g, base, acts);
    var v, h := Run(w, acts), RunGhost(w, g, acts);
    Bounds(v, h);
    AdmissionIsWindowTest(v.app.replies[0], st, v.app.waiting.value, h.app.read, h.written);
  }
}
