/** The transmit window of one session: tx_sar_table, tx_app_table, tasi_metaLoader, txEng_metaLoader and the RX state machine
    interleaved over their streams, against unbounded counters. */
module TxWindow {
  import opened ToeTypes
  import opened TcpFsm
  import opened TxTables
  import opened Retransmit

  /** tx_app_table entry, its two input streams, and tasi_metaLoader (the length it waits with). */
  datatype App = App(entry: AppEntry, pushes: seq<AckPush>, queries: seq<AppQuery>, replies: seq<AppEntry>, waiting: Option<Word16>)

  /** A TX event waiting for the meta loader. */
  datatype NewData = NewData(addr: Win18, length: Word16)

  /** txEng_metaLoader: idle, with new data, with an RT event, or retransmitting with ml_segmentCount == count. */
  datatype Loader = Idle | New(ev: NewData) | Resend(rtCount: nat) | Resending(rest: Rest, count: Bits2)

  datatype Eng = Eng(events: seq<NewData>, cur: Loader, req: seq<EngQuery>, rsp: seq<EngReply>)

  /** rxEngTcpFSM: the segment whose replies it waits for. */
  datatype Rx = Rx(cur: Option<SegmentMeta>, req: seq<TxSarReq>, rsp: seq<TxSarReply>)

  datatype Win = Win(sar: SarEntry, app: App, eng: Eng, rx: Rx)

  datatype Action =
    | AppTable
    | Request(length: Word16)
    | Decide(st: SessionState)
    | EngTable
    | RxTable
    | TakeNew
    | TakeRt(rtCount: nat)
    | SendNew
    | StartResend
    | ResendSegment
    | RxTake(meta: SegmentMeta)
    | RxRespond(st: SessionState, rxSar: RxSarEntry, junkShift: Bits4)

  /** What a step hands to the data path. */
  datatype Label =
    | Quiet
    | Admitted(addr: Win18, length: Word16)
    | Sent(seqNumb: Seq32, length: Word16)
    | ReadBack(segs: seq<Segment>)

  function AppTableStep(a: App): App {
    if a.pushes != [] then a.(entry := AfterPush(a.entry, a.pushes[0]), pushes := a.pushes[1..])
    else if a.queries != [] then
      a.(entry := AfterQuery(a.entry, a.queries[0]), queries := a.queries[1..],
         replies := a.replies + if a.queries[0].ReadApp? then [a.entry] else [])
    else a
  }

  function RequestStep(a: App, length: Word16): App {
    if a.waiting.Some? then a else a.(waiting := Some(length), queries := a.queries + [ReadApp])
  }

  predicate Decides(a: App, st: SessionState) {
    a.waiting.Some? && a.replies != [] && Admission(a.replies[0], st, a.waiting.value).Admit?
  }

  function DecideStep(a: App, st: SessionState): App {
    if a.waiting.None? || a.replies == [] then a
    else
      a.(waiting := None, replies := a.replies[1..],
         queries := a.queries + if Decides(a, st) then [WriteApp(Mod18(a.replies[0].mempt + a.waiting.value))] else [])
  }

  function LoaderStep(e: Eng, a: Action): Eng {
    match a
    case TakeNew =>
      if e.cur.Idle? && e.events != [] then
        e.(cur := New(e.events[0]), events := e.events[1..], req := e.req + [EngRead])
      else e
    case TakeRt(rtCount) => if e.cur.Idle? then e.(cur := Resend(rtCount), req := e.req + [EngRead]) else e
    case SendNew =>
      if e.cur.New? && e.rsp != [] then
        e.(cur := Idle, rsp := e.rsp[1..],
           req := e.req + [EngWrite(Mod32(e.rsp[0].notAckd + e.cur.ev.length), false, false, false)])
      else e
    case StartResend =>
      if e.cur.Resend? && e.rsp != [] then
        e.(cur := Resending(RestOf(e.rsp[0]), 0), rsp := e.rsp[1..],
           req := e.req + if e.cur.rtCount == 1 then [EngRt(Threshold(e.rsp[0].usedLengthRst))] else [])
      else e
    case ResendSegment =>
      if e.cur.Resending? then
        e.(cur := match RtStep(e.cur.rest, e.cur.count).0
                  case More(r) => if e.cur.count == 3 then Idle else Resending(r, e.cur.count + 1)
                  case _ => Idle)
      else e
    case _ => e
  }

  function LoaderLabel(e: Eng, a: Action): Label {
    if a.SendNew? && e.cur.New? && e.rsp != [] && e.cur.ev.length != 0 then Sent(e.rsp[0].notAckd, e.cur.ev.length)
    else if a.ResendSegment? && e.cur.Resending? then ReadBack(RtStep(e.cur.rest, e.cur.count).1)
    else Quiet
  }

  function RxTakeStep(r: Rx, m: SegmentMeta): Rx {
    if r.cur.Some? then r else r.(cur := Some(m), req := r.req + [ReadTx(m.id)])
  }

  function RxRespondStep(r: Rx, st: SessionState, rxSar: RxSarEntry, junk: Bits4): Rx {
    if r.cur.None? || r.rsp == [] then r
    else r.(cur := None, rsp := r.rsp[1..], req := r.req + TxSarWrites(r.cur.value, st, rxSar, r.rsp[0], junk))
  }

  function EngTableStep(w: Win): Win {
    if w.eng.req == [] then w
    else
      var q := w.eng.req[0];
      Win(SarAfterEng(w.sar, q), w.app.(pushes := w.app.pushes + PushAfterEng(q)),
          w.eng.(req := w.eng.req[1..], rsp := w.eng.rsp + if q.EngRead? then [SarReply(w.sar)] else []), w.rx)
  }

  /** The table serves the RX engine only when the TX engine asks for nothing. */
  function RxTableStep(w: Win): Win {
    if w.eng.req != [] || w.rx.req == [] then w
    else
      var q := w.rx.req[0];
      Win(SarAfterRx(w.sar, q), w.app.(pushes := w.app.pushes + PushAfterRx(q)), w.eng,
          w.rx.(req := w.rx.req[1..], rsp := w.rx.rsp + if q.ReadTx? then [RxReply(w.sar)] else []))
  }

  function Apply(w: Win, a: Action): Win {
    match a
    case AppTable => w.(app := AppTableStep(w.app))
    case Request(length) => w.(app := RequestStep(w.app, length))
    case Decide(st) =>
      w.(app := DecideStep(w.app, st),
         eng := if Decides(w.app, st) then w.eng.(events := w.eng.events + [NewData(w.app.replies[0].mempt, w.app.waiting.value)])
                else w.eng)
    case EngTable => EngTableStep(w)
    case RxTable => RxTableStep(w)
    case RxTake(m) => w.(rx := RxTakeStep(w.rx, m))
    case RxRespond(st, rxSar, junk) => w.(rx := RxRespondStep(w.rx, st, rxSar, junk))
    case _ => w.(eng := LoaderStep(w.eng, a))
  }

  function LabelOf(w: Win, a: Action): Label {
    if a.Decide? then
      if Decides(w.app, a.st) then Admitted(w.app.replies[0].mempt, w.app.waiting.value) else Quiet
    else LoaderLabel(w.eng, a)
  }

  // ----- unbounded counters -----

  /** Acknowledgements: known to the application side, on their way to it, the one it last read. */
  datatype AppGhost = AppGhost(known: int, pushed: seq<int>, read: int)

  /** Next byte: in the table, after pending writes; where a retransmission goes on. */
  datatype EngGhost = EngGhost(next: int, nextPending: int, rest: int)

  /** Acknowledged: in the table, after pending writes; the next byte the RX engine last read. */
  datatype RxGhost = RxGhost(acked: int, ackedPending: int, nextRead: int)

  datatype Ghost = Ghost(app: AppGhost, eng: EngGhost, rx: RxGhost, written: int)

  /** The unbounded acknowledgement a segment stands for. */
  function AckPosition(ack: Seq32, acked: int): int { acked + Mod32(ack - Mod32(acked)) }

  function AppTableGhost(g: AppGhost, a: App): AppGhost {
    if a.pushes != [] && g.pushed != [] then g.(known := g.pushed[0], pushed := g.pushed[1..])
    else if a.pushes == [] && a.queries != [] && a.queries[0].ReadApp? then g.(read := g.known)
    else g
  }

  function EngTableGhost(g: EngGhost, q: EngQuery, acked: int): EngGhost {
    match q
    case EngRead => g.(rest := acked)
    case EngWrite(_, _, _, _) => g.(next := g.nextPending)
    case EngRt(_) => g
  }

  function Next(g: Ghost, w: Win, a: Action): Ghost {
    match a
    case AppTable => g.(app := AppTableGhost(g.app, w.app))
    case Decide(st) => if Decides(w.app, st) then g.(written := g.written + w.app.waiting.value) else g
    case EngTable => if w.eng.req == [] then g else g.(eng := EngTableGhost(g.eng, w.eng.req[0], g.rx.acked))
    case RxTable =>
      if w.eng.req != [] || w.rx.req == [] then g
      else if w.rx.req[0].ReadTx? then g.(rx := g.rx.(nextRead := g.eng.next))
      else g.(rx := g.rx.(acked := g.rx.ackedPending), app := g.app.(pushed := g.app.pushed + [g.rx.ackedPending]))
    case SendNew =>
      if w.eng.cur.New? && w.eng.rsp != [] then g.(eng := g.eng.(nextPending := g.eng.nextPending + w.eng.cur.ev.length)) else g
    case ResendSegment =>
      if w.eng.cur.Resending? && w.eng.cur.rest.left > MSS then g.(eng := g.eng.(rest := g.eng.rest + MSS)) else g
    case RxRespond(st, rxSar, junk) =>
      if w.rx.cur.Some? && w.rx.rsp != [] && TxSarWrites(w.rx.cur.value, st, rxSar, w.rx.rsp[0], junk) != [] then
        g.(rx := g.rx.(ackedPending := AckPosition(w.rx.cur.value.ackNumb, g.rx.acked)))
      else g
    case _ => g
  }

  // ----- the invariant -----

  function EventBytes(evs: seq<NewData>): nat { if evs == [] then 0 else evs[0].length + EventBytes(evs[1..]) }

  /** The TX events carry consecutive buffer offsets from position pos on. */
  predicate EventsAt(evs: seq<NewData>, pos: int) {
    evs == [] || (evs[0].addr == Mod18(pos) && EventsAt(evs[1..], pos + evs[0].length))
  }

  predicate Ordered(lo: int, xs: seq<int>, hi: int)
    decreases |xs|
  {
    if xs == [] then lo <= hi else lo <= xs[0] && Ordered(xs[0], xs[1..], hi)
  }

  predicate PushesAre(pushes: seq<AckPush>, pushed: seq<int>) {
    |pushes| == |pushed| && forall i :: 0 <= i < |pushes| ==> !pushes[i].init && pushes[i].ackd == Mod18(pushed[i])
  }

  /** Where the application's accept pointer is: in the entry, or in a write ahead of the rest. */
  predicate Accepting(a: App, written: int, rest: seq<AppQuery>) {
    (a.queries == rest && a.entry.mempt == Mod18(written)) || a.queries == [WriteApp(Mod18(written))] + rest
  }

  predicate ReplyOk(r: AppEntry, g: AppGhost, written: int) {
    r.mempt == Mod18(written) && r.ackd == Mod18(g.read) && g.read <= g.known && written - g.read < BUFFER_SIZE
  }

  predicate AppOk(a: App, g: AppGhost, acked: int, written: int) {
    && a.entry.ackd == Mod18(g.known) && PushesAre(a.pushes, g.pushed) && Ordered(g.known, g.pushed, acked)
    && written - g.known < BUFFER_SIZE
    && (if a.waiting.None? then a.replies == [] && Accepting(a, written, [])
        else if a.replies == [] then Accepting(a, written, [ReadApp])
        else |a.replies| == 1 && a.queries == [] && a.entry.mempt == Mod18(written) && ReplyOk(a.replies[0], g, written))
  }

  /** Requests of the engine: at most one write ahead of at most one read. */
  predicate Requests(req: seq<EngQuery>, g: EngGhost, tail: seq<EngQuery>) {
    || (req == tail && g.next == g.nextPending)
    || (req == [EngWrite(Mod32(g.nextPending), false, false, false)] + tail && g.next <= g.nextPending)
    || (|req| == 1 + |tail| && req[0].EngRt? && req[1..] == tail && g.next == g.nextPending)
  }

  predicate Answered(e: Eng, g: EngGhost) {
    && e.req == [] && g.next == g.nextPending && |e.rsp| == 1 && e.rsp[0].notAckd == Mod32(g.next)
    && e.rsp[0].ackd == Mod32(g.rest) && g.rest <= g.next && e.rsp[0].usedLengthRst == g.next - g.rest && !e.rsp[0].finSent
  }

  predicate EngOk(e: Eng, g: EngGhost, written: int) {
    match e.cur
    case Idle => e.rsp == [] && Requests(e.req, g, []) && g.nextPending + EventBytes(e.events) == written && EventsAt(e.events, g.nextPending)
    case New(ev) =>
      && (if e.rsp == [] then Requests(e.req, g, [EngRead]) else Answered(e, g))
      && g.nextPending + ev.length + EventBytes(e.events) == written
      && ev.addr == Mod18(g.nextPending) && EventsAt(e.events, g.nextPending + ev.length)
    case Resend(_) =>
      && (if e.rsp == [] then Requests(e.req, g, [EngRead]) else Answered(e, g))
      && g.nextPending + EventBytes(e.events) == written && EventsAt(e.events, g.nextPending)
    case Resending(r, _) =>
      && e.rsp == [] && Requests(e.req, g, []) && r.ackd == Mod32(g.rest) && g.rest + r.left <= g.next && !r.finSent
      && g.nextPending + EventBytes(e.events) == written && EventsAt(e.events, g.nextPending)
  }

  predicate RxRequests(req: seq<TxSarReq>, g: RxGhost, n: nat) {
    || (|req| == n && g.acked == g.ackedPending && (n == 1 ==> req[0].ReadTx?))
    || (|req| == 1 + n && req[0].WriteTx? && req[0].ackd == Mod32(g.ackedPending) && (n == 1 ==> req[1].ReadTx?))
  }

  predicate RxOk(r: Rx, g: RxGhost, next: int) {
    && g.acked <= g.ackedPending <= next
    && (if r.cur.None? then r.rsp == [] && RxRequests(r.req, g, 0)
        else if r.rsp == [] then RxRequests(r.req, g, 1)
        else |r.rsp| == 1 && r.req == [] && g.acked == g.ackedPending && g.acked <= g.nextRead <= next
             && r.rsp[0].prevAck == Mod32(g.acked) && r.rsp[0].nextByte == Mod32(g.nextRead))
  }

  predicate SarOk(e: SarEntry, g: Ghost) { e.ackd == Mod32(g.rx.acked) && e.notAckd == Mod32(g.eng.next) && !e.finSent }

  predicate Inv(w: Win, g: Ghost) {
    && SarOk(w.sar, g)
    && AppOk(w.app, g.app, g.rx.acked, g.written)
    && EngOk(w.eng, g.eng, g.written)
    && RxOk(w.rx, g.rx, g.eng.next)
  }

  // ----- acceptable acknowledgements -----

  /** The assumption of the window claims: every acknowledgement that is written lies in the window the segment read. */
  predicate Acceptable(w: Win, a: Action) {
    a.RxRespond? && w.rx.cur.Some? && w.rx.rsp != [] && TxSarWrites(w.rx.cur.value, a.st, a.rxSar, w.rx.rsp[0], a.junkShift) != []
    ==> !IsSyn(w.rx.cur.value) && AckInWindow(w.rx.cur.value.ackNumb, w.rx.rsp[0])
  }

  /** An ACK segment needs no assumption, nor does a SYN-ACK: the code tests them. */
  lemma {:induction false} TestedAcks(w: Win, a: Action)
    requires a.RxRespond? && w.rx.cur.Some? && w.rx.rsp != [] && !IsSyn(w.rx.cur.value) && !IsFinAck(w.rx.cur.value)
    ensures Acceptable(w, a)
  {}

  /** The assumption is needed for exactly one branch that leaves SYN alone: an accepted FIN writes ackd untested. */
  lemma {:induction false} AcceptableExactly(m: SegmentMeta, st: SessionState, rxSar: RxSarEntry, tx: TxSarReply, junk: Bits4)
    requires !IsSyn(m)
    ensures (TxSarWrites(m, st, rxSar, tx, junk) == [] || AckInWindow(m.ackNumb, tx))
            <==> !(FinAccepted(m, st, rxSar) && !AckInWindow(m.ackNumb, tx))
  {}

  /** Such a FIN: it acknowledges a byte that was never sent. */
  lemma {:induction false} UntestedFinAck(junk: Bits4)
    ensures var m := SegmentMeta(0, 500, 2000, 100, 0, 0, true, false, true, false);
            var tx := TxSarReply(1000, 1000, 0, false, 0, 0, 0);
            var ws := TxSarWrites(m, Established, RxSarEntry(500, 500, 0), tx, junk);
            |ws| == 1 && ws[0].WriteTx? && ws[0].ackd == 2000 && !AckInWindow(ws[0].ackd, tx)
  {}

  lemma {:induction false} AckPositionMod(ack: Seq32, acked: int)
    ensures Mod32(AckPosition(ack, acked)) == ack
  {
    Mod32Add(ack - Mod32(acked), acked);
    Mod32Add(acked, ack - Mod32(acked));
    assert Mod32(acked) + (ack - Mod32(acked)) == ack;
  }

  lemma {:induction false} AckPositionIs(ack: Seq32, tx: TxSarReply, acked: int, next: int)
    requires tx.prevAck == Mod32(acked) && tx.nextByte == Mod32(next) && acked <= next < acked + SEQ_SPACE
    requires AckInWindow(ack, tx)
    ensures Mod32(AckPosition(ack, acked)) == ack && acked <= AckPosition(ack, acked) <= next
  {
    AckInWindowIsModularInterval(ack, tx);
    Mod32Diff(next, acked);
    AckPositionMod(ack, acked);
  }

  // ----- ordered pushes -----

  lemma {:induction false} OrderedBounds(lo: int, xs: seq<int>, hi: int)
    requires Ordered(lo, xs, hi)
    ensures lo <= hi
    decreases |xs|
  {
    if xs != [] { OrderedBounds(xs[0], xs[1..], hi); }
  }

  lemma {:induction false} OrderedPush(lo: int, xs: seq<int>, hi: int, x: int)
    requires Ordered(lo, xs, hi) && hi <= x
    ensures Ordered(lo, xs + [x], x)
    decreases |xs|
  {
    if xs == [] {
      assert xs + [x] == [x];
    } else {
      OrderedPush(xs[0], xs[1..], hi, x);
      assert (xs + [x])[1..] == xs[1..] + [x];
    }
  }

  lemma {:induction false} EventBytesPush(evs: seq<NewData>, ev: NewData)
    ensures EventBytes(evs + [ev]) == EventBytes(evs) + ev.length
  {
    if evs != [] {
      EventBytesPush(evs[1..], ev);
      assert (evs + [ev])[1..] == evs[1..] + [ev];
    }
  }

  lemma {:induction false} EventsAtPush(evs: seq<NewData>, pos: int, ev: NewData)
    requires EventsAt(evs, pos) && ev.addr == Mod18(pos + EventBytes(evs))
    ensures EventsAt(evs + [ev], pos)
  {
    if evs != [] {
      EventsAtPush(evs[1..], pos + evs[0].length, ev);
      assert (evs + [ev])[1..] == evs[1..] + [ev];
    }
  }

  // ----- the application side -----

  lemma {:induction false} AppTableOk(a: App, g: AppGhost, acked: int, written: int)
    requires AppOk(a, g, acked, written)
    ensures AppOk(AppTableStep(a), AppTableGhost(g, a), acked, written)
  {
    if a.pushes != [] {
      var b, h := AppTableStep(a), AppTableGhost(g, a);
      assert PushesAre(b.pushes, h.pushed);
    }
  }

  lemma {:induction false} RequestOk(a: App, length: Word16, g: AppGhost, acked: int, written: int)
    requires AppOk(a, g, acked, written)
    ensures AppOk(RequestStep(a, length), g, acked, written)
  {}

  lemma {:induction false} DecideOk(a: App, st: SessionState, g: AppGhost, acked: int, written: int)
    requires AppOk(a, g, acked, written) && g.known <= written
    ensures var written' := if Decides(a, st) then written + a.waiting.value else written;
            AppOk(DecideStep(a, st), g, acked, written')
    ensures Decides(a, st) ==>
              && st.Established? && a.replies[0].mempt == Mod18(written)
              && (a.waiting.value == 0 || written + a.waiting.value - g.read <= a.replies[0].minWindow)
  {
    if Decides(a, st) {
      AdmissionIsWindowTest(a.replies[0], st, a.waiting.value, g.read, written);
      Mod18Add(written, a.waiting.value);
    }
  }

  // ----- the TX engine -----

  lemma {:induction false} TakeNewOk(e: Eng, g: EngGhost, written: int)
    requires EngOk(e, g, written)
    ensures EngOk(LoaderStep(e, TakeNew), g, written)
  {}

  lemma {:induction false} TakeRtOk(e: Eng, rtCount: nat, g: EngGhost, written: int)
    requires EngOk(e, g, written)
    ensures EngOk(LoaderStep(e, TakeRt(rtCount)), g, written)
  {}

  lemma {:induction false} SendNewOk(e: Eng, g: EngGhost, written: int)
    requires EngOk(e, g, written) && e.cur.New? && e.rsp != []
    ensures EngOk(LoaderStep(e, SendNew), g.(nextPending := g.nextPending + e.cur.ev.length), written)
  {
    Mod32Add(g.next, e.cur.ev.length);
  }

  lemma {:induction false} StartResendOk(e: Eng, g: EngGhost, written: int)
    requires EngOk(e, g, written)
    ensures EngOk(LoaderStep(e, StartResend), g, written)
  {}

  lemma {:induction false} ResendSegmentOk(e: Eng, g: EngGhost, written: int)
    requires EngOk(e, g, written) && e.cur.Resending?
    ensures EngOk(LoaderStep(e, ResendSegment), if e.cur.rest.left > MSS then g.(rest := g.rest + MSS) else g, written)
  {
    Mod32Add(g.rest, MSS);
  }

  lemma {:induction false} EventPushOk(e: Eng, g: EngGhost, written: int, ev: NewData)
    requires EngOk(e, g, written) && ev.addr == Mod18(written)
    ensures EngOk(e.(events := e.events + [ev]), g, written + ev.length)
  {
    EventBytesPush(e.events, ev);
    var pos := if e.cur.New? then g.nextPending + e.cur.ev.length else g.nextPending;
    EventsAtPush(e.events, pos, ev);
  }

  /** The bounds that the invariant implies. */
  lemma {:induction false} Bounds(w: Win, g: Ghost)
    requires Inv(w, g)
    ensures g.app.known <= g.rx.acked <= g.rx.ackedPending <= g.eng.next <= g.eng.nextPending <= g.written < g.app.known + BUFFER_SIZE
  {
    OrderedBounds(g.app.known, g.app.pushed, g.rx.acked);
  }

  lemma {:induction false} EngTableOk(w: Win, g: Ghost)
    requires Inv(w, g) && w.eng.req != []
    ensures var e, h := EngTableStep(w), EngTableGhost(g.eng, w.eng.req[0], g.rx.acked);
            && EngOk(e.eng, h, g.written) && e.sar.ackd == w.sar.ackd && e.sar.notAckd == Mod32(h.next) && !e.sar.finSent
            && g.eng.next <= h.next && e.app == w.app
  {
    Bounds(w, g);
    EngServed(w.sar, w.eng, g.eng, g.rx.acked, g.written, w.eng.req[0]);
    assert w.app.pushes + [] == w.app.pushes;
  }

  lemma {:induction false} EngServed(sar: SarEntry, e: Eng, g: EngGhost, acked: int, written: int, q: EngQuery)
    requires EngOk(e, g, written) && e.req != [] && q == e.req[0] && !sar.finSent
    requires sar.ackd == Mod32(acked) && sar.notAckd == Mod32(g.next) && 0 <= g.next - acked < BUFFER_SIZE
    ensures EngOk(e.(req := e.req[1..], rsp := e.rsp + if q.EngRead? then [SarReply(sar)] else []), EngTableGhost(g, q, acked), written)
    ensures var f := SarAfterEng(sar, q);
            f.ackd == sar.ackd && f.notAckd == Mod32(EngTableGhost(g, q, acked).next) && !f.finSent
    ensures g.next <= EngTableGhost(g, q, acked).next && PushAfterEng(q) == []
  {
    match q
    case EngRead => EngReadOk(sar, e, g, acked, written);
    case EngWrite(_, _, _, _) => EngWriteOk(e, g, written, q);
    case EngRt(_) =>
  }

  lemma {:induction false} EngReadOk(sar: SarEntry, e: Eng, g: EngGhost, acked: int, written: int)
    requires EngOk(e, g, written) && e.req != [] && e.req[0].EngRead? && !sar.finSent
    requires sar.ackd == Mod32(acked) && sar.notAckd == Mod32(g.next) && 0 <= g.next - acked < BUFFER_SIZE
    ensures EngOk(e.(req := e.req[1..], rsp := e.rsp + [SarReply(sar)]), EngTableGhost(g, EngRead, acked), written)
    ensures e.req == [EngRead] && g.next == g.nextPending
  {
    RtDataLength(sar, acked, g.next);
  }

  lemma {:induction false} EngWriteOk(e: Eng, g: EngGhost, written: int, q: EngQuery)
    requires EngOk(e, g, written) && e.req != [] && q == e.req[0] && q.EngWrite?
    ensures EngOk(e.(req := e.req[1..]), g.(next := g.nextPending), written)
    ensures q == EngWrite(Mod32(g.nextPending), false, false, false) && g.next <= g.nextPending
  {}

  // ----- the RX engine -----

  lemma {:induction false} RxTableOk(w: Win, g: Ghost)
    requires Inv(w, g) && w.eng.req == [] && w.rx.req != []
    ensures var e, h := RxTableStep(w), Next(g, w, RxTable);
            RxOk(e.rx, h.rx, g.eng.next) && SarOk(e.sar, h) && AppOk(e.app, h.app, h.rx.acked, g.written)
  {
    var q, h := w.rx.req[0], Next(g, w, RxTable);
    if q.WriteTx? {
      var p := PushAfterRx(q)[0];
      OrderedPush(g.app.known, g.app.pushed, g.rx.acked, g.rx.ackedPending);
      Mod18Of32(g.rx.ackedPending);
      assert PushesAre(w.app.pushes + [p], h.app.pushed);
    } else {
      assert w.app.pushes + [] == w.app.pushes;
    }
  }

  lemma {:induction false} RxRespondOk(w: Win, g: Ghost, a: Action)
    requires Inv(w, g) && a.RxRespond? && Acceptable(w, a)
    ensures RxOk(Apply(w, a).rx, Next(g, w, a).rx, g.eng.next)
  {
    Bounds(w, g);
    if w.rx.cur.Some? && w.rx.rsp != [] && TxSarWrites(w.rx.cur.value, a.st, a.rxSar, w.rx.rsp[0], a.junkShift) != [] {
      AckPositionIs(w.rx.cur.value.ackNumb, w.rx.rsp[0], g.rx.acked, g.rx.nextRead);
    }
  }

  // ----- every step -----

  lemma {:induction false} EngStepOk(w: Win, g: Ghost, a: Action)
    requires Inv(w, g) && (a.TakeNew? || a.TakeRt? || a.SendNew? || a.StartResend? || a.ResendSegment?)
    ensures Inv(Apply(w, a), Next(g, w, a))
  {
    EngEffect(w, g, a);
    EngCases(w, g, a);
  }

  lemma {:induction false} EngCases(w: Win, g: Ghost, a: Action)
    requires EngOk(w.eng, g.eng, g.written) && (a.TakeNew? || a.TakeRt? || a.SendNew? || a.StartResend? || a.ResendSegment?)
    ensures EngOk(LoaderStep(w.eng, a), Next(g, w, a).eng, g.written)
  {
    match a
    case TakeNew => TakeNewOk(w.eng, g.eng, g.written);
    case TakeRt(rtCount) => TakeRtOk(w.eng, rtCount, g.eng, g.written);
    case SendNew => if w.eng.cur.New? && w.eng.rsp != [] { SendNewOk(w.eng, g.eng, g.written); }
    case StartResend => StartResendOk(w.eng, g.eng, g.written);
    case ResendSegment => if w.eng.cur.Resending? { ResendSegmentOk(w.eng, g.eng, g.written); }
  }

  /** The meta loader changes nothing but its own part. */
  lemma {:induction false} EngEffect(w: Win, g: Ghost, a: Action)
    requires a.TakeNew? || a.TakeRt? || a.SendNew? || a.StartResend? || a.ResendSegment?
    ensures Apply(w, a) == w.(eng := LoaderStep(w.eng, a)) && Next(g, w, a) == g.(eng := Next(g, w, a).eng)
    ensures Next(g, w, a).eng.next == g.eng.next
  {}

  lemma {:induction false} DecideInv(w: Win, g: Ghost, st: SessionState)
    requires Inv(w, g)
    ensures Inv(Apply(w, Decide(st)), Next(g, w, Decide(st)))
  {
    Bounds(w, g);
    DecideOk(w.app, st, g.app, g.rx.acked, g.written);
    if Decides(w.app, st) {
      EventPushOk(w.eng, g.eng, g.written, NewData(w.app.replies[0].mempt, w.app.waiting.value));
    }
  }

  lemma {:induction false} EngTableInv(w: Win, g: Ghost)
    requires Inv(w, g)
    ensures Inv(Apply(w, EngTable), Next(g, w, EngTable))
  {
    if w.eng.req != [] { EngTableOk(w, g); }
  }

  lemma {:induction false} RxTableInv(w: Win, g: Ghost)
    requires Inv(w, g)
    ensures Inv(Apply(w, RxTable), Next(g, w, RxTable))
  {
    if w.eng.req == [] && w.rx.req != [] { RxTableOk(w, g); }
  }

  lemma {:induction false} InvStep(w: Win, g: Ghost, a: Action)
    requires Inv(w, g) && Acceptable(w, a)
    ensures Inv(Apply(w, a), Next(g, w, a))
  {
    match a
    case AppTable => AppTableOk(w.app, g.app, g.rx.acked, g.written);
    case Request(length) => RequestOk(w.app, length, g.app, g.rx.acked, g.written);
    case Decide(st) => DecideInv(w, g, st);
    case EngTable => EngTableInv(w, g);
    case RxTable => RxTableInv(w, g);
    case RxTake(_) =>
    case RxRespond(_, _, _) => RxRespondOk(w, g, a);
    case _ => EngStepOk(w, g, a);
  }

  // ----- runs -----

  /** The handshake is over: nothing sent beyond the SYN, nothing accepted; at most the last acknowledgement is on its way. */
  predicate Initial(w: Win, g: Ghost, base: int) {
    && w.sar.ackd == Mod32(base) && w.sar.notAckd == Mod32(base) && !w.sar.finSent
    && w.app.entry.mempt == Mod18(base) && w.app.queries == [] && w.app.replies == [] && w.app.waiting.None?
    && w.eng == Eng([], Idle, [], []) && w.rx == Rx(None, [], [])
    && g.written == base && g.eng == EngGhost(base, base, base) && g.rx == RxGhost(base, base, base) && g.app.read == base
    && w.app.entry.ackd == Mod18(g.app.known)
    && if w.app.pushes == [] then g.app.known == base && g.app.pushed == []
       else |w.app.pushes| == 1 && !w.app.pushes[0].init && w.app.pushes[0].ackd == Mod18(base)
            && g.app.known == base - 1 && g.app.pushed == [base]
  }

  /** The handshake leads there: the SYN, with initial sequence number n - 1, writes the tables through the TX engine, and then an
      acknowledgement of n arrives. */
  lemma {:induction false} HandshakeStarts(e: SarEntry, a: AppEntry, n: Seq32, q: TxSarReq)
    requires q.WriteTx? && q.ackd == n
    ensures var syn := EngWrite(n, true, false, false);
            && |PushAfterEng(syn)| == |PushAfterRx(q)| == 1
            && Initial(Win(SarAfterRx(SarAfterEng(e, syn), q),
                           App(AfterPush(a, PushAfterEng(syn)[0]), PushAfterRx(q), [], [], None),
                           Eng([], Idle, [], []), Rx(None, [], [])),
                       Ghost(AppGhost(n - 1, [n], n), EngGhost(n, n, n), RxGhost(n, n, n), n), n)
            && SarAfterEng(e, syn).ackd == Mod32(n - 1) && AfterPush(a, PushAfterEng(syn)[0]).minWindow == 0x3908
            && SarAfterEng(e, syn).flow.cong == 0x3908 && SarAfterEng(e, syn).flow.ssthresh == BUFFER_SIZE - 1
  {
    Mod18Add(n, -1);
  }

  /** A retransmission's request sets the two windows and nothing else; a FIN's sets its flags for good. */
  lemma {:induction false} EngineEffects(e: SarEntry, q: EngQuery)
    requires q.EngRt? || (q.EngWrite? && !q.init)
    ensures var f := SarAfterEng(e, q);
            && f.ackd == e.ackd && f.app == e.app && PushAfterEng(q) == []
            && (q.EngRt? ==> f.flow.cong == 0x3908 && f.flow.ssthresh == q.threshold && f == e.(flow := f.flow)
                             && f.flow == e.flow.(cong := f.flow.cong, ssthresh := f.flow.ssthresh))
            && (q.EngWrite? ==> f.notAckd == q.notAckd && f.flow == e.flow
                                && (f.finSent <==> e.finSent || q.finSent) && (f.finReady <==> e.finReady || q.finReady))
  {
  }

  /** The threshold is lowered by the first retransmission of a timer, and by it alone; new data and retransmitted data write what
      they say. */
  lemma {:induction false} LoaderAsks(e: Eng, a: Action)
    requires !a.Decide?
    ensures var d := LoaderStep(e, a);
            && (a.StartResend? && d != e ==>
                  d.req == e.req + if e.cur.rtCount == 1 then [EngRt(Threshold(e.rsp[0].usedLengthRst))] else [])
            && (a.SendNew? && d != e ==> d.req == e.req + [EngWrite(Mod32(e.rsp[0].notAckd + e.cur.ev.length), false, false, false)])
            && (a.TakeNew? && d != e ==> [e.events[0]] + d.events == e.events && d.req == e.req + [EngRead])
            && (a.ResendSegment? ==> d.req == e.req && d.events == e.events)
  {
  }

  function Run(w: Win, acts: seq<Action>): Win
    decreases |acts|
  {
    if acts == [] then w else Apply(Run(w, acts[..|acts|-1]), acts[|acts|-1])
  }

  function RunGhost(w: Win, g: Ghost, acts: seq<Action>): Ghost
    decreases |acts|
  {
    if acts == [] then g
    else Next(RunGhost(w, g, acts[..|acts|-1]), Run(w, acts[..|acts|-1]), acts[|acts|-1])
  }

  predicate AcceptableRun(w: Win, acts: seq<Action>)
    decreases |acts|
  {
    acts == [] || (AcceptableRun(w, acts[..|acts|-1]) && Acceptable(Run(w, acts[..|acts|-1]), acts[|acts|-1]))
  }

  lemma {:induction false} InitialInv(w: Win, g: Ghost, base: int)
    requires Initial(w, g, base)
    ensures Inv(w, g)
  {
    assert PushesAre(w.app.pushes, g.app.pushed);
  }

  lemma {:induction false} InvRun(w: Win, g: Ghost, base: int, acts: seq<Action>)
    requires Initial(w, g, base) && AcceptableRun(w, acts)
    ensures Inv(Run(w, acts), RunGhost(w, g, acts))
    decreases |acts|
  {
    if acts == [] {
      InitialInv(w, g, base);
    } else {
      InvRun(w, g, base, acts[..|acts|-1]);
      InvStep(Run(w, acts[..|acts|-1]), RunGhost(w, g, acts[..|acts|-1]), acts[|acts|-1]);
    }
  }

  /** Bytes accepted from the application and not yet in not_ackd after its pending write. */
  function InFlight(e: Eng): nat { EventBytes(e.events) + if e.cur.New? then e.cur.ev.length else 0 }

  /** In every interleaving: the machine's pointers are the unbounded counters modulo their widths, the counters are ordered,
      the accepted data never reaches 2^WINDOW_BITS beyond the acknowledgement the application side knows, and it is what
      was sent plus the TX events in flight. */
  lemma {:induction false} WindowConservation(w: Win, g: Ghost, base: int, acts: seq<Action>)
    requires Initial(w, g, base) && AcceptableRun(w, acts)
    ensures var v, h := Run(w, acts), RunGhost(w, g, acts);
            && v.sar.ackd == Mod32(h.rx.acked) && v.sar.notAckd == Mod32(h.eng.next) && v.app.entry.ackd == Mod18(h.app.known)
            && h.app.known <= h.rx.acked <= h.eng.next <= h.eng.nextPending <= h.written < h.app.known + BUFFER_SIZE
            && h.written == h.eng.nextPending + InFlight(v.eng)
            && (v.app.waiting.None? && v.app.queries == [] ==> v.app.entry.mempt == Mod18(h.written))
  {
    InvRun(w, g, base, acts);
    Bounds(Run(w, acts), RunGhost(w, g, acts));
  }

  /** Each admitted non-empty write leaves the accepted data within the window it was decided with, counted from the table's own
      acknowledgement, although the decision used an older one. */
  lemma {:induction false} AdmittedWithinWindow(w: Win, g: Ghost, base: int, acts: seq<Action>, st: SessionState)
    requires Initial(w, g, base) && AcceptableRun(w, acts) && Decides(Run(w, acts).app, st)
    requires Run(w, acts).app.waiting.value != 0
    ensures var v, h := Run(w, acts), RunGhost(w, g, acts);
            && st.Established?
            && h.written + v.app.waiting.value - h.rx.acked <= v.app.replies[0].minWindow
            && h.written + v.app.waiting.value - h.app.known <= v.app.replies[0].minWindow
            && RunGhost(w, g, acts + [Decide(st)]).written == h.written + v.app.waiting.value
  {
    InvRun(w, g, base, acts);
    var v, h := Run(w, acts), RunGhost(w, g, acts);
    Bounds(v, h);
    DecideOk(v.app, st, h.app, h.rx.acked, h.written);
    assert (acts + [Decide(st)])[..|acts|] == acts;
  }

  /** A TX event's buffer offset and its sequence number are the same position. */
  lemma {:induction false} SentAtItsOffset(w: Win, g: Ghost, base: int, acts: seq<Action>)
    requires Initial(w, g, base) && AcceptableRun(w, acts)
    requires Run(w, acts).eng.cur.New? && Run(w, acts).eng.rsp != []
    ensures var v := Run(w, acts); v.eng.cur.ev.addr == Mod18(v.eng.rsp[0].notAckd)
  {
    InvRun(w, g, base, acts);
    Mod18Of32(RunGhost(w, g, acts).eng.next);
  }
}
