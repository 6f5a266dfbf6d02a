/** The receive window of one session between two initialisations: rxEngTcpFSM, rx_sar_table, rx_app_stream_if and the
    application, in any interleaving, against unbounded counters. */
module RxWindow {
  import opened ToeTypes
  import opened TcpFsm
  import StateTable
  import opened RxTables
  import opened SegmentEvents

  /** rxEngTcpFSM: the segment whose replies it waits for, and its streams to and from the table. */
  datatype Rx = Rx(cur: Option<SegmentMeta>, req: seq<RxSarReq>, rsp: seq<RxSarEntry>)

  /** rx_app_stream_if: the length it waits with, and its streams. */
  datatype App = App(waiting: Option<Word16>, req: seq<AppdReq>, rsp: seq<Win18>)

  datatype Sys = Sys(
    entry: RxSarEntry, state: SessionState, rx: Rx, app: App, notes: seq<Notification>, events: seq<RxEvent>)

  datatype Action =
    | Take(meta: SegmentMeta)
    | RxTable
    | Answer(tx: TxSarReply)
    | AppRead(length: Word16)
    | AppTable
    | AppAdvance
    | TxTable
    | AppOpen
    | AppClose
    | TimerClose

  predicate Answers(s: Sys) { s.rx.cur.Some? && s.rx.rsp != [] }

  /** The session state is read and written in one step, as the locks of the state table guarantee. */
  function AnswerStep(s: Sys, tx: TxSarReply): Sys
    requires Answers(s)
  {
    var m, e := s.rx.cur.value, s.rx.rsp[0];
    Sys(s.entry, NextState(m, s.state, e, tx), Rx(None, s.rx.req + RxSarWrites(m, s.state, e, tx), s.rx.rsp[1..]), s.app,
        s.notes + Notifications(m, s.state, e), s.events + Events(m, s.state, e, tx))
  }

  function Apply(s: Sys, a: Action): Sys {
    match a
    case Take(m) => if s.rx.cur.Some? then s else s.(rx := s.rx.(cur := Some(m), req := s.rx.req + [ReadRecvd(m.id)]))
    case RxTable =>
      if s.rx.req == [] then s
      else
        var q := s.rx.req[0];
        s.(entry := AfterRx(s.entry, q),
           rx := s.rx.(req := s.rx.req[1..], rsp := s.rx.rsp + if q.ReadRecvd? then [s.entry] else []))
    case Answer(tx) => if Answers(s) then AnswerStep(s, tx) else s
    case AppRead(length) =>
      if s.app.waiting.Some? || length == 0 then s
      else s.(app := s.app.(waiting := Some(length), req := s.app.req + [ReadAppd]))
    case AppTable =>
      if s.app.req == [] then s
      else
        var q := s.app.req[0];
        s.(entry := AfterApp(s.entry, q),
           app := s.app.(req := s.app.req[1..], rsp := s.app.rsp + if q.ReadAppd? then [s.entry.appd] else []))
    case AppAdvance =>
      if s.app.waiting.None? || s.app.rsp == [] then s
      else s.(app := App(None, s.app.req + [WriteAppd(Mod18(s.app.rsp[0] + s.app.waiting.value))], s.app.rsp[1..]))
    case TxTable => s
    case AppOpen => s.(state := SynSent)
    case AppClose => s.(state := StateTable.CloseState(s.state))
    case TimerClose => s.(state := Closed)
  }

  /** No initialisation: the run stays between two of them. */
  predicate Allowed(s: Sys, a: Action) {
    a.Answer? && Answers(s) ==>
      var ws := RxSarWrites(s.rx.cur.value, s.state, s.rx.rsp[0], a.tx); ws == [] || !ws[0].InitRecvd?
  }

  // ----- in-order, exactly once -----

  /** An accepted segment: the unbounded position of its first byte, its length, and whether a FIN follows; the place of its event
      in the stream, and whether the counter of duplicates read for it was sane. */
  datatype Accepted = Accepted(pos: int, length: nat, fin: bool, event: nat, sane: bool)

  /** start is IRS + 1; recvd is the table's value, pending the one after the queued write. */
  datatype RecvGhost = RecvGhost(start: int, log: seq<Accepted>, recvd: int, pending: int)

  function Width(a: Accepted): nat { a.length + if a.fin then 1 else 0 }

  /** The segments follow each other from start to end without gap or overlap. */
  predicate Chain(log: seq<Accepted>, start: int, end: int)
    decreases |log|
  {
    if log == [] then start == end else log[0].pos == start && Chain(log[1..], start + Width(log[0]), end)
  }

  function Lengths(log: seq<Accepted>): nat { if log == [] then 0 else log[0].length + Lengths(log[1..]) }
  function Fins(log: seq<Accepted>): nat { if log == [] then 0 else (if log[0].fin then 1 else 0) + Fins(log[1..]) }

  /** Payload lengths, in order. */
  function DataLengths(log: seq<Accepted>): seq<nat> {
    if log == [] then [] else if log[0].length == 0 then DataLengths(log[1..]) else [log[0].length] + DataLengths(log[1..])
  }

  function NotedLengths(notes: seq<Notification>): seq<nat> {
    if notes == [] then []
    else if notes[0].length == 0 then NotedLengths(notes[1..]) else [notes[0].length] + NotedLengths(notes[1..])
  }

  predicate Accepts(s: Sys) {
    Answers(s) && (DataAccepted(s.rx.cur.value, s.state, s.rx.rsp[0]) || FinAccepted(s.rx.cur.value, s.state, s.rx.rsp[0]))
  }

  function RecvNext(g: RecvGhost, s: Sys, a: Action): RecvGhost {
    match a
    case Answer(tx) =>
      if Accepts(s) then
        var m := s.rx.cur.value;
        var x := Accepted(g.pending, m.length, FinAccepted(m, s.state, s.rx.rsp[0]), |s.events|, Sane(tx));
        g.(log := g.log + [x], pending := g.pending + Width(x))
      else g
    case RxTable => if s.rx.req != [] && s.rx.req[0].WriteRecvd? then g.(recvd := g.pending) else g
    case _ => g
  }

  predicate RxReq(req: seq<RxSarReq>, g: RecvGhost, n: nat) {
    || (|req| == n && g.recvd == g.pending && (n == 1 ==> req[0].ReadRecvd?))
    || (|req| == 1 + n && req[0].WriteRecvd? && req[0].recvd == Mod32(g.pending) && (n == 1 ==> req[1].ReadRecvd?))
  }

  predicate RxOk(r: Rx, entry: RxSarEntry, g: RecvGhost) {
    && entry.recvd == Mod32(g.recvd) && g.recvd <= g.pending
    && (if r.cur.None? then r.rsp == [] && RxReq(r.req, g, 0)
        else if r.rsp == [] then RxReq(r.req, g, 1)
        else |r.rsp| == 1 && r.req == [] && g.recvd == g.pending && r.rsp[0].recvd == Mod32(g.recvd))
  }

  predicate LogOk(notes: seq<Notification>, g: RecvGhost) {
    Chain(g.log, g.start, g.pending) && NotedLengths(notes) == DataLengths(g.log)
  }

  predicate RecvInv(s: Sys, g: RecvGhost) { RxOk(s.rx, s.entry, g) && LogOk(s.notes, g) }

  lemma {:induction false} ChainPush(log: seq<Accepted>, start: int, end: int, x: Accepted)
    requires Chain(log, start, end) && x.pos == end
    ensures Chain(log + [x], start, end + Width(x))
    decreases |log|
  {
    if log != [] {
      ChainPush(log[1..], start + Width(log[0]), end, x);
      assert (log + [x])[1..] == log[1..] + [x];
    }
  }

  lemma {:induction false} DataLengthsPush(log: seq<Accepted>, x: Accepted)
    ensures DataLengths(log + [x]) == if x.length == 0 then DataLengths(log) else DataLengths(log) + [x.length]
  {
    if log != [] {
      DataLengthsPush(log[1..], x);
      assert (log + [x])[1..] == log[1..] + [x];
    }
  }

  lemma {:induction false} NotedLengthsPush(notes: seq<Notification>, n: Notification)
    ensures NotedLengths(notes + [n]) == if n.length == 0 then NotedLengths(notes) else NotedLengths(notes) + [n.length as nat]
  {
    if notes != [] {
      NotedLengthsPush(notes[1..], n);
      assert (notes + [n])[1..] == notes[1..] + [n];
    }
  }

  lemma {:induction false} ChainTotal(log: seq<Accepted>, start: int, end: int)
    requires Chain(log, start, end)
    ensures end == start + Lengths(log) + Fins(log)
    decreases |log|
  {
    if log != [] { ChainTotal(log[1..], start + Width(log[0]), end); }
  }

  /** The k-th accepted segment begins where everything accepted before it ends. */
  lemma {:induction false} ChainAt(log: seq<Accepted>, start: int, end: int, k: nat)
    requires Chain(log, start, end) && k < |log|
    ensures log[k].pos == start + Lengths(log[..k]) + Fins(log[..k])
    decreases |log|
  {
    if k > 0 {
      ChainAt(log[1..], start + Width(log[0]), end, k - 1);
      assert log[..k][1..] == log[1..][..k - 1];
    }
  }

  // ----- preservation -----

  lemma {:induction false} AnswerRx(s: Sys, tx: TxSarReply, g: RecvGhost)
    requires RxOk(s.rx, s.entry, g) && Answers(s) && Allowed(s, Answer(tx))
    ensures RxOk(AnswerStep(s, tx).rx, s.entry, RecvNext(g, s, Answer(tx)))
  {
    if Accepts(s) {
      var m := s.rx.cur.value;
      var w := m.length + if FinAccepted(m, s.state, s.rx.rsp[0]) then 1 else 0;
      Mod32Add(g.recvd, w);
    }
  }

  lemma {:induction false} AnswerLog(s: Sys, tx: TxSarReply, g: RecvGhost)
    requires LogOk(s.notes, g) && Answers(s)
    ensures LogOk(AnswerStep(s, tx).notes, RecvNext(g, s, Answer(tx)))
  {
    var m, e := s.rx.cur.value, s.rx.rsp[0];
    var ns := Notifications(m, s.state, e);
    if ns != [] {
      NotedLengthsPush(s.notes, ns[0]);
      assert s.notes + ns == s.notes + [ns[0]];
    } else {
      assert s.notes + ns == s.notes;
    }
    if Accepts(s) {
      var x := Accepted(g.pending, m.length, FinAccepted(m, s.state, e), |s.events|, Sane(tx));
      ChainPush(g.log, g.start, g.pending, x);
      DataLengthsPush(g.log, x);
    }
  }

  lemma {:induction false} RecvStep(s: Sys, g: RecvGhost, a: Action)
    requires RecvInv(s, g) && Allowed(s, a)
    ensures RecvInv(Apply(s, a), RecvNext(g, s, a))
  {
    if a.Answer? && Answers(s) {
      AnswerRx(s, a.tx, g);
      AnswerLog(s, a.tx, g);
    }
  }

  // ----- runs -----

  /** Right behind an initialisation: nothing received, nothing queued. */
  predicate Initial(s: Sys, g: RecvGhost) {
    && s.entry.recvd == Mod32(g.start) && s.rx == Rx(None, [], []) && s.notes == []
    && g.log == [] && g.recvd == g.start && g.pending == g.start
  }

  function Run(s: Sys, acts: seq<Action>): Sys
    decreases |acts|
  {
    if acts == [] then s else Apply(Run(s, acts[..|acts|-1]), acts[|acts|-1])
  }

  function RecvRun(s: Sys, g: RecvGhost, acts: seq<Action>): RecvGhost
    decreases |acts|
  {
    if acts == [] then g
    else RecvNext(RecvRun(s, g, acts[..|acts|-1]), Run(s, acts[..|acts|-1]), acts[|acts|-1])
  }

  predicate AllowedRun(s: Sys, acts: seq<Action>)
    decreases |acts|
  {
    acts == [] || (AllowedRun(s, acts[..|acts|-1]) && Allowed(Run(s, acts[..|acts|-1]), acts[|acts|-1]))
  }

  lemma {:induction false} RecvInvRun(s: Sys, g: RecvGhost, acts: seq<Action>)
    requires Initial(s, g) && AllowedRun(s, acts)
    ensures RecvInv(Run(s, acts), RecvRun(s, g, acts))
    decreases |acts|
  {
    if acts != [] {
      RecvInvRun(s, g, acts[..|acts|-1]);
      RecvStep(Run(s, acts[..|acts|-1]), RecvRun(s, g, acts[..|acts|-1]), acts[|acts|-1]);
    }
  }

  /** For any input segments: the accepted payload ranges are contiguous from IRS + 1, without gap, overlap or duplicate; the
      table holds IRS + 1 plus the accepted lengths plus one per accepted FIN; the notified lengths are the accepted ones,
      in order. */
  lemma {:induction false} InOrderExactlyOnce(s: Sys, g: RecvGhost, acts: seq<Action>)
    requires Initial(s, g) && AllowedRun(s, acts)
    ensures var t, h := Run(s, acts), RecvRun(s, g, acts);
            && h.start == g.start && Chain(h.log, g.start, h.pending)
            && h.pending == g.start + Lengths(h.log) + Fins(h.log)
            && (t.rx.req == [] ==> t.entry.recvd == Mod32(g.start + Lengths(h.log) + Fins(h.log)))
            && NotedLengths(t.notes) == DataLengths(h.log)
  {
    RecvInvRun(s, g, acts);
    StartKept(s, g, acts);
    var h := RecvRun(s, g, acts);
    ChainTotal(h.log, g.start, h.pending);
  }

  lemma {:induction false} StartKept(s: Sys, g: RecvGhost, acts: seq<Action>)
    ensures RecvRun(s, g, acts).start == g.start
    decreases |acts|
  {
    if acts != [] { StartKept(s, g, acts[..|acts|-1]); }
  }

  /** A segment is accepted only at the position right behind everything accepted before it. */
  lemma {:induction false} AcceptedInOrder(s: Sys, g: RecvGhost, acts: seq<Action>)
    requires Initial(s, g) && AllowedRun(s, acts) && Accepts(Run(s, acts))
    ensures var t, h := Run(s, acts), RecvRun(s, g, acts);
            t.rx.cur.value.seqNumb == Mod32(g.start + Lengths(h.log) + Fins(h.log))
  {
    RecvInvRun(s, g, acts);
    InOrderExactlyOnce(s, g, acts);
  }

  // ----- every accepted segment is acknowledged -----

  /** The event answers the accepted segment x: an ACK, or the own FIN, which carries one. Only a counter that holds three duplicates
      without its flag (excluded over runs by FastRetransmit.CountersSane) makes it a retransmission. */
  predicate Acknowledges(e: RxEvent, x: Accepted) {
    if x.fin then e.AckEvent? || e.FinEvent? else if x.sane then e.AckEvent? else e.AckEvent? || e.RtEvent?
  }

  predicate AcknowledgedAt(events: seq<RxEvent>, x: Accepted) { x.event < |events| && Acknowledges(events[x.event], x) }

  /** Each accepted segment has its own event, in the order of acceptance. */
  predicate AllAcknowledged(events: seq<RxEvent>, log: seq<Accepted>) {
    && (forall k :: 0 <= k < |log| ==> AcknowledgedAt(events, log[k]))
    && (forall j, k :: 0 <= j < k < |log| ==> log[j].event < log[k].event)
  }

  lemma {:induction false} AnswerAcknowledged(s: Sys, tx: TxSarReply, g: RecvGhost)
    requires Answers(s) && AllAcknowledged(s.events, g.log)
    ensures AllAcknowledged(AnswerStep(s, tx).events, RecvNext(g, s, Answer(tx)).log)
  {
    var t, h := AnswerStep(s, tx), RecvNext(g, s, Answer(tx));
    forall k | 0 <= k < |h.log| ensures AcknowledgedAt(t.events, h.log[k]) {
      if k < |g.log| { assert AcknowledgedAt(s.events, g.log[k]); }
    }
    if Accepts(s) {
      forall j | 0 <= j < |g.log| ensures g.log[j].event < |s.events| { assert AcknowledgedAt(s.events, g.log[j]); }
    }
  }

  /** Over any run: the k-th accepted segment has its own event, behind those of the segments accepted before it, and that event
      sends an acknowledgement. */
  lemma {:induction false} AcceptedIsAcknowledged(s: Sys, g: RecvGhost, acts: seq<Action>)
    requires g.log == []
    ensures AllAcknowledged(Run(s, acts).events, RecvRun(s, g, acts).log)
    decreases |acts|
  {
    if acts != [] {
      var p, a := acts[..|acts|-1], acts[|acts|-1];
      AcceptedIsAcknowledged(s, g, p);
      if a.Answer? && Answers(Run(s, p)) { AnswerAcknowledged(Run(s, p), a.tx, RecvRun(s, g, p)); }
    }
  }

  // ----- the buffer is never overtaken -----

  /** The application's read position in the table and after its queued write; the one the RX engine last read; the right edge
      of everything advertised so far, and as it was at that read; accepted FINs. */
  datatype WinGhost = WinGhost(appd: int, appdPending: int, seen: int, edge: int, edgeSeen: int, fins: nat)

  function Edge(e: RxSarEntry, recvd: int): int { recvd + WindowReply(e).windowSize * Pow2(e.rxWinShift) }

  function WinNext(w: WinGhost, g: RecvGhost, s: Sys, a: Action): WinGhost {
    match a
    case RxTable => if s.rx.req != [] && s.rx.req[0].ReadRecvd? then w.(seen := w.appd, edgeSeen := w.edge) else w
    case Answer(_) =>
      if Answers(s) && FinAccepted(s.rx.cur.value, s.state, s.rx.rsp[0]) then w.(fins := w.fins + 1) else w
    case AppTable => if s.app.req != [] && s.app.req[0].WriteAppd? then w.(appd := w.appdPending) else w
    case AppAdvance =>
      if s.app.waiting.Some? && s.app.rsp != [] then w.(appdPending := w.appdPending + s.app.waiting.value) else w
    case TxTable => if Edge(s.entry, g.recvd) > w.edge then w.(edge := Edge(s.entry, g.recvd)) else w
    case _ => w
  }

  /** The application reads only what it was notified of, and a FIN carries no payload. */
  predicate Disciplined(s: Sys, g: RecvGhost, w: WinGhost, a: Action) {
    && Allowed(s, a)
    && (a.AppRead? && s.app.waiting.None? ==> w.appdPending + a.length <= g.pending - w.fins)
    && (a.Answer? && Answers(s) && FinAccepted(s.rx.cur.value, s.state, s.rx.rsp[0]) ==> s.rx.cur.value.length == 0)
  }

  predicate AppReq(req: seq<AppdReq>, w: WinGhost, tail: seq<AppdReq>) {
    (req == tail && w.appd == w.appdPending) || (req == [WriteAppd(Mod18(w.appdPending))] + tail && w.appd <= w.appdPending)
  }

  predicate AppOk(a: App, appd: Win18, w: WinGhost) {
    && appd == Mod18(w.appd)
    && (if a.waiting.None? then a.rsp == [] && AppReq(a.req, w, [])
        else if a.rsp == [] then AppReq(a.req, w, [ReadAppd])
        else a.req == [] && w.appd == w.appdPending && a.rsp == [Mod18(w.appd)])
  }

  predicate SpaceOk(s: Sys, g: RecvGhost, w: WinGhost) {
    && w.fins <= 1 && w.appd <= w.appdPending && g.pending - g.recvd <= 0x1_0000
    && w.appdPending + (if s.app.waiting.Some? then s.app.waiting.value else 0) <= g.pending - w.fins
    && g.pending - w.appd <= BUFFER_SIZE - 2 + w.fins
    && w.edge < w.appd + BUFFER_SIZE
    && (s.rx.rsp != [] ==>
          s.rx.rsp[0].appd == Mod18(w.seen) && w.seen <= w.appd && g.pending - w.seen <= BUFFER_SIZE - 2 + w.fins
          && w.edgeSeen < w.seen + BUFFER_SIZE)
  }

  /** After an accepted FIN no further one is accepted before an initialisation. */
  predicate FinStates(st: SessionState, fins: nat) {
    fins > 0 ==> st.Closing? || st.TimeWait? || st.LastAck? || st.Closed? || st.SynSent?
  }

  predicate WinInv(s: Sys, g: RecvGhost, w: WinGhost) {
    AppOk(s.app, s.entry.appd, w) && SpaceOk(s, g, w) && FinStates(s.state, w.fins)
  }

  /** The free space the code computes, in unbounded counters. */
  lemma {:induction false} FreeSpaceIs(e: RxSarEntry, recvd: int, appd: int)
    requires e.recvd == Mod32(recvd) && e.appd == Mod18(appd) && 0 <= recvd - appd < BUFFER_SIZE
    ensures FreeSpace(e) == BUFFER_SIZE - 1 - (recvd - appd)
  {
    Mod18Of32(recvd);
    Mod18Diff(recvd, appd);
  }

  lemma {:induction false} DivideMultiply(f: nat, p: nat)
    requires p > 0
    ensures f / p * p <= f
  {
    assert f == f / p * p + f % p;
  }

  lemma {:induction false} Monotone(a: nat, b: nat, p: nat)
    requires a <= b
    ensures a * p <= b * p
  {}

  lemma {:induction false} Truncated(f: nat, p: nat)
    requires p > 0
    ensures f / p % 0x1_0000 * p <= f
  {
    var q := f / p;
    var r := q % 0x1_0000;
    DivideMultiply(f, p);
    Monotone(r, q, p);
  }

  /** The window told to the peer, scaled back, is at most the computed space. */
  lemma {:induction false} ScaledBack(e: RxSarEntry)
    ensures WindowReply(e).windowSize * Pow2(e.rxWinShift) <= FreeSpace(e)
  {
    Truncated(FreeSpace(e), Pow2(e.rxWinShift));
  }

  /** The right edge of an advertisement stays within the buffer, even while the table's recvd lags behind the application. */
  lemma {:induction false} EdgeBound(e: RxSarEntry, recvd: int, appd: int)
    requires e.recvd == Mod32(recvd) && e.appd == Mod18(appd) && recvd - appd < BUFFER_SIZE && appd - recvd < BUFFER_SIZE
    ensures Edge(e, recvd) < appd + BUFFER_SIZE
  {
    ScaledBack(e);
    if recvd >= appd {
      FreeSpaceIs(e, recvd, appd);
    } else {
      Mod18Of32(recvd);
      Mod18Diff(appd - 1, recvd);
      var r: int := Mod18(recvd);
      Mod18Add(appd, -1 - r);
      Mod18Add(appd - 1, -r);
    }
  }

  lemma {:induction false} AnswerWin(s: Sys, g: RecvGhost, w: WinGhost, tx: TxSarReply)
    requires RxOk(s.rx, s.entry, g) && WinInv(s, g, w) && Answers(s) && Disciplined(s, g, w, Answer(tx))
    ensures WinInv(AnswerStep(s, tx), RecvNext(g, s, Answer(tx)), WinNext(w, g, s, Answer(tx)))
  {
    FreeSpaceIs(s.rx.rsp[0], g.recvd, w.seen);
    FinStep(s.rx.cur.value, s.state, s.rx.rsp[0], tx, w.fins);
  }

  lemma {:induction false} FinStep(m: SegmentMeta, st: SessionState, e: RxSarEntry, tx: TxSarReply, fins: nat)
    requires FinStates(st, fins) && (RxSarWrites(m, st, e, tx) == [] || !RxSarWrites(m, st, e, tx)[0].InitRecvd?)
    ensures FinAccepted(m, st, e) ==> fins == 0
    ensures FinStates(NextState(m, st, e, tx), if FinAccepted(m, st, e) then fins + 1 else fins)
  {}

  lemma {:induction false} RxTableWin(s: Sys, g: RecvGhost, w: WinGhost)
    requires RecvInv(s, g) && WinInv(s, g, w)
    ensures WinInv(Apply(s, RxTable), RecvNext(g, s, RxTable), WinNext(w, g, s, RxTable))
  {
    if s.rx.req != [] {
      assert !s.rx.req[0].InitRecvd?;
    }
  }

  lemma {:induction false} AppSideWin(s: Sys, g: RecvGhost, w: WinGhost, a: Action)
    requires RecvInv(s, g) && WinInv(s, g, w) && Disciplined(s, g, w, a) && (a.AppRead? || a.AppTable? || a.AppAdvance?)
    ensures WinInv(Apply(s, a), RecvNext(g, s, a), WinNext(w, g, s, a))
  {
    if a.AppAdvance? && s.app.waiting.Some? { Mod18Add(w.appd, s.app.waiting.value); }
  }

  lemma {:induction false} TxTableWin(s: Sys, g: RecvGhost, w: WinGhost)
    requires RecvInv(s, g) && WinInv(s, g, w)
    ensures WinInv(s, g, WinNext(w, g, s, TxTable))
  {
    EdgeBound(s.entry, g.recvd, w.appd);
  }

  lemma {:induction false} WinStep(s: Sys, g: RecvGhost, w: WinGhost, a: Action)
    requires RecvInv(s, g) && WinInv(s, g, w) && Disciplined(s, g, w, a)
    ensures WinInv(Apply(s, a), RecvNext(g, s, a), WinNext(w, g, s, a))
  {
    match a
    case Answer(tx) => if Answers(s) { AnswerWin(s, g, w, tx); }
    case RxTable => RxTableWin(s, g, w);
    case TxTable => TxTableWin(s, g, w);
    case AppRead(_) => AppSideWin(s, g, w, a);
    case AppTable => AppSideWin(s, g, w, a);
    case AppAdvance => AppSideWin(s, g, w, a);
    case _ =>
  }

  function WinRun(s: Sys, g: RecvGhost, w: WinGhost, acts: seq<Action>): WinGhost
    decreases |acts|
  {
    if acts == [] then w
    else
      var p := acts[..|acts|-1];
      WinNext(WinRun(s, g, w, p), RecvRun(s, g, p), Run(s, p), acts[|acts|-1])
  }

  predicate DisciplinedRun(s: Sys, g: RecvGhost, w: WinGhost, acts: seq<Action>)
    decreases |acts|
  {
    acts == []
    || (var p := acts[..|acts|-1];
        DisciplinedRun(s, g, w, p) && Disciplined(Run(s, p), RecvRun(s, g, p), WinRun(s, g, w, p), acts[|acts|-1]))
  }

  /** An established session or one on its way there, right behind the initialisation, the application not reading. */
  predicate WinInitial(s: Sys, g: RecvGhost, w: WinGhost) {
    && Initial(s, g) && s.entry.appd == Mod18(g.start) && s.app == App(None, [], [])
    && w == WinGhost(g.start, g.start, g.start, g.start, g.start, 0)
  }

  lemma {:induction false} WinInvRun(s: Sys, g: RecvGhost, w: WinGhost, acts: seq<Action>)
    requires WinInitial(s, g, w) && DisciplinedRun(s, g, w, acts)
    ensures RecvInv(Run(s, acts), RecvRun(s, g, acts)) && WinInv(Run(s, acts), RecvRun(s, g, acts), WinRun(s, g, w, acts))
    decreases |acts|
  {
    if acts != [] {
      var p := acts[..|acts|-1];
      WinInvRun(s, g, w, p);
      RecvStep(Run(s, p), RecvRun(s, g, p), acts[|acts|-1]);
      WinStep(Run(s, p), RecvRun(s, g, p), WinRun(s, g, w, p), acts[|acts|-1]);
    }
  }

  /** In every interleaving the received data stays less than 2^WINDOW_BITS ahead of the application, and never behind what the
      application was given. */
  lemma {:induction false} NeverOvertaken(s: Sys, g: RecvGhost, w: WinGhost, acts: seq<Action>)
    requires WinInitial(s, g, w) && DisciplinedRun(s, g, w, acts)
    ensures var t, h, v := Run(s, acts), RecvRun(s, g, acts), WinRun(s, g, w, acts);
            && t.entry.appd == Mod18(v.appd) && t.entry.recvd == Mod32(h.recvd)
            && h.recvd - v.appd < BUFFER_SIZE && v.appd <= h.pending && h.pending - v.appd < BUFFER_SIZE
  {
    WinInvRun(s, g, w, acts);
  }

  /** The window advertised in any reachable state, scaled by the shift, ends within the buffer the application has freed. */
  lemma {:induction false} AdvertisedFits(s: Sys, g: RecvGhost, w: WinGhost, acts: seq<Action>)
    requires WinInitial(s, g, w) && DisciplinedRun(s, g, w, acts)
    ensures var t, h, v := Run(s, acts), RecvRun(s, g, acts), WinRun(s, g, w, acts);
            Edge(t.entry, h.recvd) <= v.appd + BUFFER_SIZE - 1
  {
    WinInvRun(s, g, w, acts);
    EdgeBound(Run(s, acts).entry, RecvRun(s, g, acts).recvd, WinRun(s, g, w, acts).appd);
  }

  /** w is f scaled down by p and nothing less. */
  predicate ScaledDown(w: nat, f: nat, p: nat) { w * p <= f < (w + 1) * p }

  lemma {:induction false} ScaledDownIs(w: nat, f: nat, p: nat)
    requires p > 0
    ensures ScaledDown(w, f, p) <==> w == f / p
  {
    assert f == f / p * p + f % p;
    if w < f / p {
      Monotone(w + 1, f / p, p);
    } else if w > f / p {
      Monotone(f / p + 1, w, p);
    }
  }

  lemma {:induction false} FieldIs(f: nat, p: nat)
    requires p > 0
    ensures ScaledDown(f / p % 0x1_0000, f, p) <==> f / p < 0x1_0000
  {
    var q := f / p;
    assert 0 <= q by { assert f == q * p + f % p; }
    ScaledDownIs(q % 0x1_0000, f, p);
  }

  /** The window field is the free space scaled down exactly when that fits its 16 bits: always with a shift of 2, which is the code's
      own when the peer scales, and without scaling below 2^16 free bytes. */
  lemma {:induction false} WindowFieldExactly(e: RxSarEntry)
    ensures ScaledDown(WindowReply(e).windowSize, FreeSpace(e), Pow2(e.rxWinShift)) <==> FreeSpace(e) / Pow2(e.rxWinShift) < 0x1_0000
  {
    FieldIs(FreeSpace(e), Pow2(e.rxWinShift));
  }

  lemma {:induction false} ScaledWindowFits(e: RxSarEntry)
    requires e.rxWinShift == WINDOW_SCALE_BITS
    ensures FreeSpace(e) / Pow2(e.rxWinShift) < 0x1_0000
  {
    assert Pow2(1) == 2;
  }

  /** Without scaling, 2^16 free bytes are advertised as none. */
  lemma {:induction false} UnscaledWindowWraps()
    ensures var e := RxSarEntry(0, 0x1_0001, 0); FreeSpace(e) == 0x1_0000 && WindowReply(e).windowSize == 0
  {
    assert Pow2(0) == 1;
    assert 0x1_0000 / 1 % 0x1_0000 == 0;
  }

  predicate Advertises(e: RxSarEntry, r: RxWindowReply, recvd: int, appd: int) {
    && r.recvd == Mod32(recvd) && r.rxWinShift == e.rxWinShift
    && (0 <= recvd - appd < BUFFER_SIZE && FreeSpace(e) / Pow2(e.rxWinShift) < 0x1_0000 ==>
          ScaledDown(r.windowSize, BUFFER_SIZE - 1 - (recvd - appd), Pow2(e.rxWinShift)))
  }

  lemma {:induction false} EntryAdvertises(e: RxSarEntry, recvd: int, appd: int)
    requires e.recvd == Mod32(recvd) && e.appd == Mod18(appd) && recvd - appd < BUFFER_SIZE
    ensures Advertises(e, WindowReply(e), recvd, appd)
  {
    WindowFieldExactly(e);
    if appd <= recvd { FreeSpaceIs(e, recvd, appd); }
  }

  /** A run starts where an accepted SYN or SYN-ACK leaves the table: the byte behind the SYN is expected, the whole buffer is free, and
      the shift is the code's own exactly if the peer sent one. */
  lemma {:induction false} InitialisationStarts(e: RxSarEntry, m: SegmentMeta, st: SessionState, rx: RxSarEntry, tx: TxSarReply)
    requires RxSarWrites(m, st, rx, tx) != [] && RxSarWrites(m, st, rx, tx)[0].InitRecvd?
    ensures m.syn && NextState(m, st, rx, tx) != st
    ensures var f := AfterRx(e, RxSarWrites(m, st, rx, tx)[0]);
            && f.recvd == Mod32(m.seqNumb + 1) && f.appd == Mod18(m.seqNumb + 1) && FreeSpace(f) == BUFFER_SIZE - 1
            && f.rxWinShift == (if m.recvWindowScale == 0 then 0 else 2)
  {
    var n := m.seqNumb + 1;
    Mod18Of32(n);
    FreeSpaceIs(AfterRx(e, RxSarWrites(m, st, rx, tx)[0]), n, n);
  }

  /** What the TX engine is told in any reachable state: as acknowledgement the next byte expected (but for a write on its way), and as
      window, where it fits, the whole space between that and the application's read position. */
  lemma {:induction false} AdvertisedIs(s: Sys, g: RecvGhost, w: WinGhost, acts: seq<Action>)
    requires WinInitial(s, g, w) && DisciplinedRun(s, g, w, acts)
    ensures var t, h, v := Run(s, acts), RecvRun(s, g, acts), WinRun(s, g, w, acts);
            && Advertises(t.entry, WindowReply(t.entry), h.recvd, v.appd)
            && (t.rx.req == [] ==> h.recvd == h.pending && Chain(h.log, h.start, h.recvd))
  {
    WinInvRun(s, g, w, acts);
    EntryAdvertises(Run(s, acts).entry, RecvRun(s, g, acts).recvd, WinRun(s, g, w, acts).appd);
  }

  predicate InOrderData(s: Sys) {
    && Answers(s) && IsAck(s.rx.cur.value) && AckProcessed(s.state) && s.rx.cur.value.length != 0
    && s.rx.cur.value.seqNumb == s.rx.rsp[0].recvd
  }

  lemma {:induction false} InOrderDecision(s: Sys, g: RecvGhost, w: WinGhost)
    requires RecvInv(s, g) && WinInv(s, g, w) && InOrderData(s)
    ensures DataAccepted(s.rx.cur.value, s.state, s.rx.rsp[0])
            <==> g.pending + s.rx.cur.value.length < w.seen + BUFFER_SIZE - 1
    ensures g.pending + s.rx.cur.value.length < w.edgeSeen ==> DataAccepted(s.rx.cur.value, s.state, s.rx.rsp[0])
  {
    FreeSpaceIs(s.rx.rsp[0], g.recvd, w.seen);
  }

  /** An in-order segment is accepted exactly when it ends strictly inside the space that was free at the read; so one that ends
      strictly inside any advertisement made before that read always is. */
  lemma {:induction false} InsideAdvertisementPasses(s: Sys, g: RecvGhost, w: WinGhost, acts: seq<Action>)
    requires WinInitial(s, g, w) && DisciplinedRun(s, g, w, acts) && InOrderData(Run(s, acts))
    ensures var t, h, v := Run(s, acts), RecvRun(s, g, acts), WinRun(s, g, w, acts);
            var m := t.rx.cur.value;
            && (DataAccepted(m, t.state, t.rx.rsp[0]) <==> h.pending + m.length < v.seen + BUFFER_SIZE - 1)
            && (h.pending + m.length < v.edgeSeen ==> DataAccepted(m, t.state, t.rx.rsp[0]))
  {
    WinInvRun(s, g, w, acts);
    InOrderDecision(Run(s, acts), RecvRun(s, g, acts), WinRun(s, g, w, acts));
  }

  /** A segment that fills the advertised window to its last byte is dropped. */
  lemma {:induction false} ExactFillDropped()
    ensures var e := RxSarEntry(0x3_FFFB, 0, 2);
            var m := SegmentMeta(0, 0x3_FFFB, 0, 100, 0, 4, true, false, false, false);
            && WindowReply(e).windowSize * Pow2(e.rxWinShift) == m.length
            && m.seqNumb == e.recvd && !DataAccepted(m, Established, e)
  {
    assert Pow2(2) == 4;
  }
}
