/** Fast retransmission over whole runs of the transmit window: the counter of duplicate acknowledgements in tx_sar_table, which
    the RX state machine reads and writes while the TX engine writes the same entry, against the number of duplicates in a row. */
module FastRetransmit {
  import opened ToeTypes
  import opened TcpFsm
  import opened TxTables
  import opened TxWindow
  import opened SegmentEvents

  /** A step in which the state machine answers a segment. */
  predicate Responds(w: Win, a: Action) { a.RxRespond? && w.rx.cur.Some? && w.rx.rsp != [] }

  /** It repeats the acknowledgement in the table while something is unacknowledged (section 2 of RFC 5681, without its test
      of the window field). */
  predicate Repeats(m: SegmentMeta, tx: TxSarReply) { m.ackNumb == tx.prevAck && tx.prevAck != tx.nextByte }

  /** Duplicates without payload in a row: an acknowledgement inside the window that is no duplicate ends the row, and so does a
      new connection. Other segments leave it alone. */
  function Duplicates(k: nat, m: SegmentMeta, st: SessionState, tx: TxSarReply): nat {
    if IsAck(m) && AckProcessed(st) && AckInWindow(m.ackNumb, tx) then
      if !Repeats(m, tx) then 0 else if m.length == 0 then k + 1 else k
    else if (IsSyn(m) && (st.Closed? || st.SynSent?)) || (IsSynAck(m) && st.SynSent? && m.ackNumb == tx.nextByte) then 0
    else k
  }

  function CountNext(k: nat, w: Win, a: Action): nat {
    if Responds(w, a) then Duplicates(k, w.rx.cur.value, a.st, w.rx.rsp[0]) else k
  }

  /** k duplicates are held as k modulo 4, with the flag from the third on. */
  predicate Stands(k: nat, count: Bits2, fast: bool) { count == k % 4 && (fast <==> k >= 3) }

  predicate Queue(req: seq<TxSarReq>, f: Flow, k: nat, n: nat) {
    || (|req| == n && Stands(k, f.count, f.fast) && (n == 1 ==> req[0].ReadTx?))
    || (|req| == 1 + n && req[0].WriteTx? && Stands(k, req[0].count, req[0].fastRetransmitted) && (n == 1 ==> req[1].ReadTx?))
  }

  /** The table, the write on its way to it, or the reply the state machine holds stand for k. */
  predicate Counted(r: Rx, f: Flow, k: nat) {
    if r.cur.None? then r.rsp == [] && Queue(r.req, f, k, 0)
    else if r.rsp == [] then Queue(r.req, f, k, 1)
    else |r.rsp| == 1 && r.req == [] && Stands(k, f.count, f.fast) && Stands(k, r.rsp[0].count, r.rsp[0].fastRetransmitted)
  }

  /** A new connection's SYN sent by the TX engine, a retransmission's new windows: neither touches the counter. */
  lemma {:induction false} EngineKeepsCounter(e: SarEntry, q: EngQuery)
    ensures SarAfterEng(e, q).flow.count == e.flow.count && SarAfterEng(e, q).flow.fast == e.flow.fast
  {
  }

  lemma {:induction false} TableCounted(w: Win, k: nat)
    requires Counted(w.rx, w.sar.flow, k)
    ensures Counted(RxTableStep(w).rx, RxTableStep(w).sar.flow, k)
    ensures Counted(EngTableStep(w).rx, EngTableStep(w).sar.flow, k)
  {
    if w.eng.req != [] { EngineKeepsCounter(w.sar, w.eng.req[0]); }
  }

  /** What the answer writes stands for the row that includes the segment. */
  lemma {:induction false} AnswerCounts(k: nat, m: SegmentMeta, st: SessionState, rx: RxSarEntry, tx: TxSarReply, junk: Bits4)
    requires Stands(k, tx.count, tx.fastRetransmitted)
    ensures var ws := TxSarWrites(m, st, rx, tx, junk);
            && |ws| <= 1
            && if ws == [] then Duplicates(k, m, st, tx) == k
               else ws[0].WriteTx? && Stands(Duplicates(k, m, st, tx), ws[0].count, ws[0].fastRetransmitted)
  {
    AckCounts(k, m, tx, CountAfterAck(m, tx), FastAfterAck(m, tx));
  }

  /** One more duplicate without payload, the same row, or a new one. */
  lemma {:induction false} AckCounts(k: nat, m: SegmentMeta, tx: TxSarReply, count: Bits2, fast: bool)
    requires Stands(k, tx.count, tx.fastRetransmitted) && count == CountAfterAck(m, tx) && fast == FastAfterAck(m, tx)
    ensures Stands(if !Repeats(m, tx) then 0 else if m.length == 0 then k + 1 else k, count, count == 3 || fast)
  {
    if Repeats(m, tx) && m.length == 0 {
      assert (k + 1) % 4 == (k % 4 + 1) % 4;
    }
  }

  lemma {:induction false} StepCounted(w: Win, a: Action, k: nat)
    requires Counted(w.rx, w.sar.flow, k)
    ensures Counted(Apply(w, a).rx, Apply(w, a).sar.flow, CountNext(k, w, a))
  {
    match a
    case EngTable => TableCounted(w, k);
    case RxTable => TableCounted(w, k);
    case RxRespond(st, rx, junk) =>
      if Responds(w, a) { AnswerCounts(k, w.rx.cur.value, st, rx, w.rx.rsp[0], junk); }
    case _ =>
  }

  function CountRun(w: Win, acts: seq<Action>): nat
    decreases |acts|
  {
    if acts == [] then 0
    else CountNext(CountRun(w, acts[..|acts|-1]), Run(w, acts[..|acts|-1]), acts[|acts|-1])
  }

  /** No duplicate counted yet, as at power-up and right behind a SYN; the state machine waits for a segment. */
  predicate Start(w: Win) { w.rx == Rx(None, [], []) && w.sar.flow.count == 0 && !w.sar.flow.fast }

  lemma {:induction false} RunCounted(w: Win, acts: seq<Action>)
    requires Start(w)
    ensures Counted(Run(w, acts).rx, Run(w, acts).sar.flow, CountRun(w, acts))
    decreases |acts|
  {
    if acts != [] {
      RunCounted(w, acts[..|acts|-1]);
      StepCounted(Run(w, acts[..|acts|-1]), acts[|acts|-1], CountRun(w, acts[..|acts|-1]));
    }
  }

  /** The counter read is always consistent: what the lemmas about single segments ask for. */
  lemma {:induction false} CountersSane(w: Win, acts: seq<Action>)
    requires Start(w) && Run(w, acts).rx.rsp != []
    ensures Sane(Run(w, acts).rx.rsp[0])
  {
    RunCounted(w, acts);
  }

  lemma {:induction false} ReplyStands(w: Win, k: nat)
    requires Counted(w.rx, w.sar.flow, k) && w.rx.rsp != []
    ensures Stands(k, w.rx.rsp[0].count, w.rx.rsp[0].fastRetransmitted)
  {
  }

  lemma {:induction false} ThirdIs(k: nat, m: SegmentMeta, st: SessionState, rx: RxSarEntry, tx: TxSarReply, junk: Bits4)
    requires Stands(k, tx.count, tx.fastRetransmitted)
    ensures RtEvent(m.id) in Respond(m, st, rx, tx, junk).events
            <==> IsAck(m) && AckProcessed(st) && Repeats(m, tx) && m.length == 0 && k == 2
  {
    EventsRaised(m, st, rx, tx, junk);
  }

  /** Over any run, whatever the TX engine writes in between: a fast retransmission is asked for exactly by the third duplicate in
      a row, so once until new data is acknowledged. */
  lemma {:induction false} ThirdDuplicateExactly(w: Win, acts: seq<Action>, a: Action)
    requires Start(w) && Responds(Run(w, acts), a)
    ensures var v := Run(w, acts);
            var m, tx := v.rx.cur.value, v.rx.rsp[0];
            RtEvent(m.id) in Respond(m, a.st, a.rxSar, tx, a.junkShift).events
            <==> IsAck(m) && AckProcessed(a.st) && Repeats(m, tx) && m.length == 0 && CountRun(w, acts) == 2
  {
    RunCounted(w, acts);
    ReplyStands(Run(w, acts), CountRun(w, acts));
    ThirdIs(CountRun(w, acts), Run(w, acts).rx.cur.value, a.st, a.rxSar, Run(w, acts).rx.rsp[0], a.junkShift);
  }

  /** Over any run: what a segment brings is acknowledged, with one event each. */
  lemma {:induction false} ReceivedIsAcknowledgedInRuns(w: Win, acts: seq<Action>, a: Action)
    requires Start(w) && Responds(Run(w, acts), a)
    ensures var v := Run(w, acts);
            var m, es := v.rx.cur.value, Respond(v.rx.cur.value, a.st, a.rxSar, v.rx.rsp[0], a.junkShift).events;
            && (IsAck(m) && AckProcessed(a.st) && m.length != 0 ==> es == [AckEvent(m.id)])
            && (IsFinAck(m) ==> es == [if FinAccepted(m, a.st, a.rxSar) && a.st.Established? then FinEvent(m.id) else AckEvent(m.id)])
  {
    CountersSane(w, acts);
    var v := Run(w, acts);
    ReceivedIsAcknowledged(v.rx.cur.value, a.st, a.rxSar, v.rx.rsp[0], a.junkShift);
  }
}
