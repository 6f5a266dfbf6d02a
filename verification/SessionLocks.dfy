/** state_table composed with its clients: the RX engine's TCP state machine, the application's open
    and close interface, and the timers. A run is any interleaving of their steps. */
module SessionLocks {
  import opened ToeTypes
  import opened TcpFsm
  import opened StateTable

  datatype System = System(
    t: TableView,
    fsmState: FsmState, meta: SegmentMeta, metaIn: seq<SegmentMeta>,
    app: AppState, closeId: SessionId, lookupRsp: seq<LookupReply>, closeReq: seq<SessionId>)

  /** Steps of the processes, then what the environment may do at any time. The SAR replies the state
      machine consumes are arbitrary here. */
  datatype Action =
    | TableAct
    | RxAct(rxSar: RxSarEntry, txSar: TxSarReply)
    | AppAct
    | Segment(m: SegmentMeta)
    | Lookup(r: LookupReply)
    | CloseRequest(id: SessionId)
    | AppQuery(id: SessionId)
    | Timeout(id: SessionId)
    | TakeAppReply
    | TakeRelease

  function RxClient(s: System, rx: RxSarEntry, tx: TxSarReply): System {
    match s.fsmState
    case Load =>
      if s.metaIn == [] then s
      else s.(fsmState := Transition, meta := s.metaIn[0], metaIn := s.metaIn[1..],
              t := s.t.(rx := s.t.rx.(req := s.t.rx.req + [ReadState(s.metaIn[0].id)])))
    case Transition =>
      if s.t.rx.rsp == [] then s
      else s.(fsmState := Load,
              t := s.t.(rx := s.t.rx.(
                rsp := s.t.rx.rsp[1..],
                req := s.t.rx.req + [WriteState(s.meta.id, NextState(s.meta, s.t.rx.rsp[0], rx, tx))])))
  }

  function Send(t: TableView, q: StateQuery): TableView { t.(tx := t.tx.(req := t.tx.req + [q])) }

  function AppClient(s: System): System {
    match s.app
    case Idle =>
      if s.lookupRsp != [] then
        var r, u := s.lookupRsp[0], s.(lookupRsp := s.lookupRsp[1..]);
        if r.hit then u.(t := Send(s.t, WriteState(r.id, SynSent))) else u
      else if s.closeReq != [] then
        s.(closeReq := s.closeReq[1..], closeId := s.closeReq[0], app := CloseConn,
           t := Send(s.t, ReadState(s.closeReq[0])))
      else s
    case CloseConn =>
      if s.t.tx.rsp == [] then s
      else s.(app := Idle,
              t := Send(s.t.(tx := s.t.tx.(rsp := s.t.tx.rsp[1..])),
                        WriteState(s.closeId, CloseState(s.t.tx.rsp[0]))))
  }

  function Apply(s: System, a: Action): System {
    match a
    case TableAct => s.(t := TableStep(s.t))
    case RxAct(rx, tx) => RxClient(s, rx, tx)
    case AppAct => AppClient(s)
    case Segment(m) => s.(metaIn := s.metaIn + [m])
    case Lookup(r) => s.(lookupRsp := s.lookupRsp + [r])
    case CloseRequest(id) => s.(closeReq := s.closeReq + [id])
    case AppQuery(id) => s.(t := s.t.(appReq := s.t.appReq + [id]))
    case Timeout(id) => s.(t := s.t.(timerReq := s.t.timerReq + [id]))
    case TakeAppReply => s.(t := s.t.(appRsp := if s.t.appRsp == [] then [] else s.t.appRsp[1..]))
    case TakeRelease => s.(t := s.t.(release := if s.t.release == [] then [] else s.t.release[1..]))
  }

  /** Power-up: every session closed, no lock, nothing in flight. */
  predicate Initial(s: System) {
    && (forall i: SessionId :: s.t.table[i] == Closed)
    && !s.t.rx.locked && !s.t.tx.locked && !s.t.rx.wait && !s.t.tx.wait && !s.t.closeWait
    && s.t.rx.req == s.t.tx.req == [] && s.t.appReq == s.t.timerReq == s.t.release == []
    && s.t.rx.rsp == s.t.tx.rsp == s.t.appRsp == []
    && s.fsmState == Load && s.app == Idle && s.metaIn == [] && s.lookupRsp == [] && s.closeReq == []
  }

  function Run(s: System, acts: seq<Action>): System
    decreases |acts|
  {
    if acts == [] then s else Apply(Run(s, acts[..|acts|-1]), acts[|acts|-1])
  }

  // ----- the clients are projections of the code's processes -----

  /** A step of rxEngTcpFSM changes its state, its two state-table streams and its input as RxClient does,
      or changes nothing while a SAR reply is missing. */
  lemma {:induction false} RxClientIsFsmStep(s: System, v: FsmView, junkTx: TxSarReply, junkShift: Bits4)
    requires v.fsmState == s.fsmState && v.meta == s.meta && v.metaIn == s.metaIn
    requires v.stateRsp == s.t.rx.rsp && v.out.state == s.t.rx.req
    requires v.fsmState.Transition? ==> Ready(v)
    ensures var w := FsmStep(v, junkTx, junkShift);
            var rx := if v.rxSarRsp != [] then v.rxSarRsp[0] else RxSarEntry(0, 0, 0);
            var u := RxClient(s, rx, if v.txSarRequest && v.txSarRsp != [] then v.txSarRsp[0] else junkTx);
            && w.fsmState == u.fsmState && w.meta == u.meta && w.metaIn == u.metaIn && w.stateRsp == u.t.rx.rsp
            && w.out.state == u.t.rx.req
  {
  }

  lemma {:induction false} AppClientIsAppStep(s: System, v: AppView)
    requires v.state == s.app && v.closeId == s.closeId && v.lookupRsp == s.lookupRsp && v.closeReq == s.closeReq
    requires v.stateRsp == s.t.tx.rsp && v.stateReq == s.t.tx.req && v.established == v.timedOut == []
    ensures var w, u := AppStep(v), AppClient(s);
            && w.state == u.app && w.closeId == u.closeId && w.lookupRsp == u.lookupRsp && w.closeReq == u.closeReq
            && w.stateRsp == u.t.tx.rsp
            && w.stateReq == u.t.tx.req
  {
  }

  // ----- legal transitions -----

  /** The transitions an arriving segment may cause: edges of the diagram of RFC 793 section 3.2 with LISTEN
      merged into Closed and CLOSE_WAIT into LastAck, and an abort to Closed. */
  predicate SegmentEdge(from: SessionState, to: SessionState) {
    || from == to
    || to.Closed?
    || (to.SynReceived? && (from.Closed? || from.SynSent?))
    || (to.Established? && (from.SynSent? || from.SynReceived?))
    || (to.LastAck? && from.Established?)
    || (to.Closing? && (from.FinWait1? || from.FinWait2?))
    || (to.TimeWait? && (from.FinWait1? || from.FinWait2? || from.Closing?))
  }

  lemma {:induction false} NextStateIsEdge(m: SegmentMeta, st: SessionState, rx: RxSarEntry, tx: TxSarReply)
    ensures SegmentEdge(st, NextState(m, st, rx, tx))
  {
  }

  /** The edges are exactly what segments cause: each one is the answer to some segment. */
  lemma {:induction false} EveryEdgeHasSegment(id: SessionId, from: SessionState, to: SessionState)
    returns (m: SegmentMeta, rx: RxSarEntry, tx: TxSarReply)
    requires SegmentEdge(from, to)
    ensures m.id == id && NextState(m, from, rx, tx) == to
  {
    var base := SegmentMeta(id, 0, 0, 0, 0, 0, true, false, false, false);
    rx, tx := RxSarEntry(0, 0, 0), TxSarReply(0, 0, 0, false, 0, 0, 0);
    m := if from == to then base.(ack := false)
         else if to.Closed? then base.(rst := true)
         else if to.SynReceived? then base.(ack := false, syn := true)
         else if to.Established? && from.SynSent? then base.(syn := true)
         else if to.LastAck? || (to.TimeWait? && !from.Closing?) then base.(fin := true)
         else if to.Closing? then base.(fin := true, ackNumb := 1)
         else base;
  }

  // ----- the invariant -----

  /** Requests sent and not yet granted, oldest first. */
  function Pending(p: Port): seq<StateQuery> { (if p.wait then [p.access] else []) + p.req }

  predicate Opens(qs: seq<StateQuery>) {
    forall i :: 0 <= i < |qs| ==> qs[i].WriteState? && qs[i].state.SynSent?
  }

  /** The RX engine's own write: to the locked session, along an edge from the state it will replace. */
  predicate RxWrite(p: Port, table: States, q: StateQuery) {
    q.WriteState? && q.id == p.id && SegmentEdge(table[p.id], q.state)
  }

  /** From the read's grant to the write's grant the RX engine holds the lock, and the reply it has or had is
      the value still in the table. */
  predicate RxOk(p: Port, table: States, fs: FsmState, m: SegmentMeta) {
    var w := Pending(p);
    && (p.wait ==> !p.locked)
    && match fs
       case Load => p.rsp == [] && if p.locked then |w| == 1 && RxWrite(p, table, w[0]) else w == []
       case Transition =>
         if !p.locked then p.rsp == [] && w == [ReadState(m.id)]
         else
           || (p.rsp == [table[p.id]] && w == [] && p.id == m.id)
           || (p.rsp == [] && |w| == 2 && RxWrite(p, table, w[0]) && w[1] == ReadState(m.id))
  }

  /** The application's pending requests, its own write apart: opens, and last the read of a close. */
  predicate AppQueue(q: seq<StateQuery>, app: AppState, closeId: SessionId) {
    match app
    case Idle => Opens(q)
    case CloseConn => |q| >= 1 && q[|q|-1] == ReadState(closeId) && Opens(q[..|q|-1])
  }

  predicate TxOk(p: Port, table: States, app: AppState, closeId: SessionId) {
    var w := Pending(p);
    && (p.wait ==> !p.locked)
    && if !p.locked then p.rsp == [] && AppQueue(w, app, closeId)
       else
         || (p.rsp == [table[p.id]] && w == [] && app == CloseConn && p.id == closeId)
         || (p.rsp == [] && |w| >= 1 && w[0] == WriteState(p.id, CloseState(table[p.id]))
             && AppQueue(w[1..], app, closeId))
  }

  predicate Disjoint(t: TableView) { t.rx.locked && t.tx.locked ==> t.rx.id != t.tx.id }

  predicate NoFinWait2(table: States) { forall i: SessionId :: table[i] != FinWait2 }

  predicate Inv(s: System) {
    && Disjoint(s.t) && NoFinWait2(s.t.table)
    && RxOk(s.t.rx, s.t.table, s.fsmState, s.meta)
    && TxOk(s.t.tx, s.t.table, s.app, s.closeId)
  }

  lemma {:induction false} InitialInv(s: System)
    requires Initial(s)
    ensures Inv(s)
  {
  }

  // ----- preservation -----

  /** A port cares only about the entry it holds. */
  lemma {:induction false} PortFrame(s: System, table: States)
    ensures RxOk(s.t.rx, s.t.table, s.fsmState, s.meta) && (s.t.rx.locked ==> table[s.t.rx.id] == s.t.table[s.t.rx.id])
            ==> RxOk(s.t.rx, table, s.fsmState, s.meta)
    ensures TxOk(s.t.tx, s.t.table, s.app, s.closeId) && (s.t.tx.locked ==> table[s.t.tx.id] == s.t.table[s.t.tx.id])
            ==> TxOk(s.t.tx, table, s.app, s.closeId)
  {
  }

  lemma {:induction false} PendingAfterTake(p: Port, table: States, other: Port)
    requires p.req != [] && !p.wait
    ensures Pending(p) == p.req
    ensures Pending(Take(p, table, other)) == if Holds(other, p.req[0].id) then p.req else p.req[1..]
  {
  }

  lemma {:induction false} PendingAfterRetry(p: Port, table: States, other: Port)
    requires p.wait
    ensures Pending(p) == [p.access] + p.req
    ensures !Holds(other, p.access.id) ==> Pending(Retry(p, table, other)) == p.req == Pending(p)[1..]
  {
  }

  /** g is port p after the grant of its oldest request. */
  predicate Granted(p: Port, table: States, g: Port) {
    && Pending(p) != [] && Pending(g) == Pending(p)[1..] && !g.wait
    && var h := Grant(p, table, Pending(p)[0]);
       g.id == h.id && g.locked == h.locked && g.rsp == h.rsp
  }

  lemma {:induction false} RxGranted(p: Port, table: States, fs: FsmState, m: SegmentMeta, g: Port)
    requires RxOk(p, table, fs, m) && Granted(p, table, g)
    ensures RxOk(g, Store(table, Pending(p)[0]), fs, m)
    ensures NoFinWait2(table) ==> NoFinWait2(Store(table, Pending(p)[0]))
    ensures p.locked ==> Pending(p)[0].WriteState? && Pending(p)[0].id == p.id
    ensures !p.locked ==> Pending(p)[0].ReadState?
  {
  }

  /** The head of the application's queue is an open, or the read of a close and then nothing follows it. */
  lemma {:induction false} AppQueueHead(q: seq<StateQuery>, app: AppState, closeId: SessionId)
    requires AppQueue(q, app, closeId) && q != []
    ensures q[0].WriteState? ==> q[0].state.SynSent? && AppQueue(q[1..], app, closeId)
    ensures q[0].ReadState? ==> app == CloseConn && q == [ReadState(closeId)]
  {
    if app == CloseConn && |q| > 1 {
      assert q[..|q|-1][0] == q[0];
      assert q[1..][..|q[1..]|-1] == q[..|q|-1][1..];
    }
  }

  lemma {:induction false} TxGranted(p: Port, table: States, app: AppState, closeId: SessionId, g: Port)
    requires TxOk(p, table, app, closeId) && Granted(p, table, g)
    ensures TxOk(g, Store(table, Pending(p)[0]), app, closeId)
    ensures NoFinWait2(table) ==> NoFinWait2(Store(table, Pending(p)[0]))
    ensures p.locked ==> Pending(p)[0] == WriteState(p.id, CloseState(table[p.id]))
    ensures !p.locked && Pending(p)[0].WriteState? ==> Pending(p)[0].state.SynSent?
  {
    if !p.locked {
      AppQueueHead(Pending(p), app, closeId);
    }
  }

  /** Only a process that holds no lock is ever delayed. */
  lemma {:induction false} RxDelayed(s: System)
    requires Inv(s) && s.t.rx.req != [] && !s.t.rx.wait && Holds(s.t.tx, s.t.rx.req[0].id)
    ensures !s.t.rx.locked && RxOk(TakeRx(s.t).rx, s.t.table, s.fsmState, s.meta)
  {
    PendingAfterTake(s.t.rx, s.t.table, s.t.tx);
  }

  lemma {:induction false} TxDelayed(s: System)
    requires Inv(s) && s.t.tx.req != [] && !s.t.tx.wait && Holds(s.t.rx, s.t.tx.req[0].id)
    ensures !s.t.tx.locked && TxOk(TakeTx(s.t).tx, s.t.table, s.app, s.closeId)
  {
    PendingAfterTake(s.t.tx, s.t.table, s.t.rx);
  }

  /** Storing the granted request q of one port leaves the other port's invariant alone. */
  lemma {:induction false} OtherPort(s: System, q: StateQuery)
    requires Inv(s)
    ensures !Holds(s.t.rx, q.id) ==> RxOk(s.t.rx, Store(s.t.table, q), s.fsmState, s.meta)
    ensures !Holds(s.t.tx, q.id) ==> TxOk(s.t.tx, Store(s.t.table, q), s.app, s.closeId)
  {
    PortFrame(s, Store(s.t.table, q));
  }

  lemma {:induction false} TakeTxInv(s: System)
    requires Inv(s) && s.t.tx.req != [] && !s.t.tx.wait
    ensures Inv(s.(t := TakeTx(s.t)))
  {
    if Holds(s.t.rx, s.t.tx.req[0].id) {
      TxDelayed(s);
    } else {
      PendingAfterTake(s.t.tx, s.t.table, s.t.rx);
      TxGranted(s.t.tx, s.t.table, s.app, s.closeId, TakeTx(s.t).tx);
      OtherPort(s, s.t.tx.req[0]);
    }
  }

  lemma {:induction false} TakeRxInv(s: System)
    requires Inv(s) && s.t.rx.req != [] && !s.t.rx.wait
    ensures Inv(s.(t := TakeRx(s.t)))
  {
    if Holds(s.t.tx, s.t.rx.req[0].id) {
      RxDelayed(s);
    } else {
      PendingAfterTake(s.t.rx, s.t.table, s.t.tx);
      RxGranted(s.t.rx, s.t.table, s.fsmState, s.meta, TakeRx(s.t).rx);
      OtherPort(s, s.t.rx.req[0]);
    }
  }

  lemma {:induction false} RetryTxInv(s: System)
    requires Inv(s) && s.t.tx.wait
    ensures Inv(s.(t := RetryTx(s.t)))
  {
    if !Holds(s.t.rx, s.t.tx.access.id) {
      PendingAfterRetry(s.t.tx, s.t.table, s.t.rx);
      TxGranted(s.t.tx, s.t.table, s.app, s.closeId, RetryTx(s.t).tx);
      OtherPort(s, s.t.tx.access);
    }
  }

  lemma {:induction false} RetryRxInv(s: System)
    requires Inv(s) && s.t.rx.wait
    ensures Inv(s.(t := RetryRx(s.t)))
  {
    if !Holds(s.t.tx, s.t.rx.access.id) {
      PendingAfterRetry(s.t.rx, s.t.table, s.t.tx);
      RxGranted(s.t.rx, s.t.table, s.fsmState, s.meta, RetryRx(s.t).rx);
      OtherPort(s, s.t.rx.access);
    }
  }

  lemma {:induction false} TableActInv(s: System)
    requires Inv(s)
    ensures Inv(Apply(s, TableAct))
  {
    var t := s.t;
    PortFrame(s, TableStep(t).table);
    if t.tx.req != [] && !t.tx.wait {
      TakeTxInv(s);
    } else if t.appReq != [] {
    } else if t.rx.req != [] && !t.rx.wait {
      TakeRxInv(s);
    } else if t.timerReq != [] && !t.closeWait {
    } else if t.tx.wait {
      RetryTxInv(s);
    } else if t.rx.wait {
      RetryRxInv(s);
    }
  }

  lemma {:induction false} RxActInv(s: System, rx: RxSarEntry, tx: TxSarReply)
    requires Inv(s)
    ensures Inv(RxClient(s, rx, tx))
  {
    var u := RxClient(s, rx, tx);
    if s.fsmState.Transition? && s.t.rx.rsp != [] {
      NextStateIsEdge(s.meta, s.t.rx.rsp[0], rx, tx);
    }
    if u != s {
      assert Pending(u.t.rx) == Pending(s.t.rx) + [u.t.rx.req[|s.t.rx.req|]];
    }
  }

  /** An idle application interface sends an open, or the read of a close and then waits. */
  lemma {:induction false} AppSends(p: Port, table: States, closeId: SessionId, r: StateQuery, app': AppState, closeId': SessionId)
    requires TxOk(p, table, Idle, closeId)
    requires if app' == Idle then r.WriteState? && r.state.SynSent? else r == ReadState(closeId')
    ensures TxOk(p.(req := p.req + [r]), table, app', closeId')
  {
    var w, g := Pending(p), p.(req := p.req + [r]);
    assert Pending(g) == w + [r];
    if p.locked {
      assert (w + [r])[1..] == w[1..] + [r];
      AppQueued(w[1..], closeId, r, app', closeId');
    } else {
      AppQueued(w, closeId, r, app', closeId');
    }
  }

  lemma {:induction false} AppQueued(w: seq<StateQuery>, closeId: SessionId, r: StateQuery, app': AppState, closeId': SessionId)
    requires AppQueue(w, Idle, closeId)
    requires if app' == Idle then r.WriteState? && r.state.SynSent? else r == ReadState(closeId')
    ensures AppQueue(w + [r], app', closeId')
  {
    assert (w + [r])[..|w|] == w;
  }

  lemma {:induction false} AppAnswers(p: Port, table: States, closeId: SessionId)
    requires TxOk(p, table, CloseConn, closeId) && p.rsp != []
    ensures TxOk(p.(rsp := p.rsp[1..], req := p.req + [WriteState(closeId, CloseState(p.rsp[0]))]), table, Idle, closeId)
  {
    var r := WriteState(closeId, CloseState(p.rsp[0]));
    assert Pending(p.(rsp := p.rsp[1..], req := p.req + [r])) == Pending(p) + [r] == [r];
    assert [r][1..] == [];
  }

  lemma {:induction false} AppActInv(s: System)
    requires Inv(s)
    ensures Inv(AppClient(s))
  {
    if s.app == CloseConn {
      if s.t.tx.rsp != [] {
        AppAnswers(s.t.tx, s.t.table, s.closeId);
      }
    } else if s.lookupRsp != [] {
      AppSends(s.t.tx, s.t.table, s.closeId, WriteState(s.lookupRsp[0].id, SynSent), Idle, s.closeId);
    } else if s.closeReq != [] {
      AppSends(s.t.tx, s.t.table, s.closeId, ReadState(s.closeReq[0]), CloseConn, s.closeReq[0]);
    }
  }

  lemma {:induction false} ApplyInv(s: System, a: Action)
    requires Inv(s)
    ensures Inv(Apply(s, a))
  {
    match a
    case TableAct => TableActInv(s);
    case RxAct(rx, tx) => RxActInv(s, rx, tx);
    case AppAct => AppActInv(s);
    case _ =>
  }

  lemma {:induction false} RunInv(s: System, acts: seq<Action>)
    requires Inv(s)
    ensures Inv(Run(s, acts))
    decreases |acts|
  {
    if acts != [] {
      RunInv(s, acts[..|acts|-1]);
      ApplyInv(Run(s, acts[..|acts|-1]), acts[|acts|-1]);
    }
  }

  // ----- atomic read-modify-write -----

  /** What Inv says of a lock holder: it is not delayed, nobody else holds its session, and its oldest request
      is its own write. */
  predicate Holder(p: Port, other: Port) {
    p.locked && !p.wait && !Holds(other, p.id) && (p.req != [] ==> p.req[0].WriteState? && p.req[0].id == p.id)
  }

  lemma {:induction false} Holders(s: System)
    requires Inv(s)
    ensures s.t.rx.locked ==> Holder(s.t.rx, s.t.tx) && Pending(s.t.rx) == s.t.rx.req
    ensures s.t.tx.locked ==> Holder(s.t.tx, s.t.rx) && Pending(s.t.tx) == s.t.tx.req
  {
    if s.t.rx.locked {
      assert Pending(s.t.rx) == s.t.rx.req;
    }
    if s.t.tx.locked {
      assert Pending(s.t.tx) == s.t.tx.req;
    }
  }

  /** A step towards a holder p, its entry and its oldest request: nothing changes, or p's own write is stored
      and the lock ends. */
  predicate Kept(p: Port, before: States, g: Port, after: States) {
    if g.locked then g.id == p.id && after[p.id] == before[p.id] && (p.req != [] ==> g.req != [] && g.req[0] == p.req[0])
    else p.req != [] && p.req[0].WriteState? && after[p.id] == p.req[0].state
  }

  lemma {:induction false} RxKeptByTable(t: TableView)
    requires Holder(t.rx, t.tx)
    ensures Kept(t.rx, t.table, TableStep(t).rx, TableStep(t).table)
  {
  }

  lemma {:induction false} TxKeptByTable(t: TableView)
    requires Holder(t.tx, t.rx)
    ensures Kept(t.tx, t.table, TableStep(t).tx, TableStep(t).table)
  {
  }

  lemma {:induction false} KeptByOthers(s: System, a: Action)
    requires a != TableAct
    ensures Holder(s.t.rx, s.t.tx) ==> Kept(s.t.rx, s.t.table, Apply(s, a).t.rx, Apply(s, a).t.table)
    ensures Holder(s.t.tx, s.t.rx) ==> Kept(s.t.tx, s.t.table, Apply(s, a).t.tx, Apply(s, a).t.table)
  {
    PortsGrow(s, a, Apply(s, a).t);
  }

  /** The other processes only send requests and take answers. */
  lemma {:induction false} PortsGrow(s: System, a: Action, u: TableView)
    requires a != TableAct && u == Apply(s, a).t
    ensures u.table == s.t.table
    ensures u.rx.id == s.t.rx.id && u.rx.locked == s.t.rx.locked && s.t.rx.req <= u.rx.req
    ensures u.tx.id == s.t.tx.id && u.tx.locked == s.t.tx.locked && s.t.tx.req <= u.tx.req
  {
    match a
    case RxAct(rx, tx) => RxGrows(s, rx, tx, u);
    case AppAct => AppGrows(s, u);
    case _ =>
  }

  lemma {:induction false} RxGrows(s: System, rx: RxSarEntry, tx: TxSarReply, u: TableView)
    requires u == RxClient(s, rx, tx).t
    ensures u.table == s.t.table && u.tx == s.t.tx
    ensures u.rx.id == s.t.rx.id && u.rx.locked == s.t.rx.locked && s.t.rx.req <= u.rx.req
  {}

  lemma {:induction false} AppGrows(s: System, u: TableView)
    requires u == AppClient(s).t
    ensures u.table == s.t.table && u.rx == s.t.rx
    ensures u.tx.id == s.t.tx.id && u.tx.locked == s.t.tx.locked && s.t.tx.req <= u.tx.req
  {}

  /** While the RX engine holds a session no step of any process changes its entry but the grant of the RX
      engine's own write; likewise for the application interface. */
  lemma {:induction false} EntryKept(s: System, a: Action)
    ensures Holder(s.t.rx, s.t.tx) ==> Kept(s.t.rx, s.t.table, Apply(s, a).t.rx, Apply(s, a).t.table)
    ensures Holder(s.t.tx, s.t.rx) ==> Kept(s.t.tx, s.t.table, Apply(s, a).t.tx, Apply(s, a).t.table)
  {
    if a == TableAct {
      if Holder(s.t.rx, s.t.tx) { RxKeptByTable(s.t); }
      if Holder(s.t.tx, s.t.rx) { TxKeptByTable(s.t); }
    } else {
      KeptByOthers(s, a);
    }
  }

  predicate RxLockedThroughout(s: System, acts: seq<Action>) {
    forall j :: 0 <= j < |acts| ==> Run(s, acts[..j]).t.rx.locked
  }

  predicate TxLockedThroughout(s: System, acts: seq<Action>) {
    forall j :: 0 <= j < |acts| ==> Run(s, acts[..j]).t.tx.locked
  }

  lemma {:induction false} LastStep(s: System, acts: seq<Action>)
    requires acts != []
    ensures var before := acts[..|acts|-1];
            && Run(s, acts) == Apply(Run(s, before), acts[|acts|-1])
            && (RxLockedThroughout(s, acts) ==> RxLockedThroughout(s, before) && Run(s, before).t.rx.locked)
            && (TxLockedThroughout(s, acts) ==> TxLockedThroughout(s, before) && Run(s, before).t.tx.locked)
  {
    var before := acts[..|acts|-1];
    assert forall j :: 0 <= j < |before| ==> before[..j] == acts[..j];
  }

  /** Over any run: a held entry keeps its value and the holder's write w stays first, until w is stored. */
  lemma {:induction false} RxHeldRun(s: System, acts: seq<Action>, w: StateQuery)
    requires Inv(s) && s.t.rx.locked && s.t.rx.req != [] && s.t.rx.req[0] == w && w.WriteState?
    requires RxLockedThroughout(s, acts)
    ensures var t := Run(s, acts).t;
            if t.rx.locked
            then t.rx.id == s.t.rx.id && t.table[s.t.rx.id] == s.t.table[s.t.rx.id] && t.rx.req != [] && t.rx.req[0] == w
            else t.table[s.t.rx.id] == w.state
    decreases |acts|
  {
    if acts != [] {
      var before := acts[..|acts|-1];
      LastStep(s, acts);
      RxHeldRun(s, before, w);
      RunInv(s, before);
      Holders(Run(s, before));
      EntryKept(Run(s, before), acts[|acts|-1]);
    }
  }

  lemma {:induction false} TxHeldRun(s: System, acts: seq<Action>, w: StateQuery)
    requires Inv(s) && s.t.tx.locked && s.t.tx.req != [] && s.t.tx.req[0] == w && w.WriteState?
    requires TxLockedThroughout(s, acts)
    ensures var t := Run(s, acts).t;
            if t.tx.locked
            then t.tx.id == s.t.tx.id && t.table[s.t.tx.id] == s.t.table[s.t.tx.id] && t.tx.req != [] && t.tx.req[0] == w
            else t.table[s.t.tx.id] == w.state
    decreases |acts|
  {
    if acts != [] {
      var before := acts[..|acts|-1];
      LastStep(s, acts);
      TxHeldRun(s, before, w);
      RunInv(s, before);
      Holders(Run(s, before));
      EntryKept(Run(s, before), acts[|acts|-1]);
    }
  }

  /** Read-modify-write of the RX engine, over any run: from the moment the read's reply is there until the lock
      is released, whatever the other processes do, the entry is what was read; the step that releases the lock
      stores the state machine's answer to it. */
  lemma {:induction false} RxReadModifyWrite(s: System, rx: RxSarEntry, tx: TxSarReply, acts: seq<Action>)
    requires Inv(s) && s.fsmState.Transition? && s.t.rx.rsp != []
    requires RxLockedThroughout(RxClient(s, rx, tx), acts)
    ensures var t := Run(RxClient(s, rx, tx), acts).t;
            && s.t.rx.rsp == [s.t.table[s.meta.id]]
            && if t.rx.locked then t.rx.id == s.meta.id && t.table[s.meta.id] == s.t.rx.rsp[0]
               else t.table[s.meta.id] == NextState(s.meta, s.t.rx.rsp[0], rx, tx)
  {
    Holders(s);
    RxActInv(s, rx, tx);
    RxHeldRun(RxClient(s, rx, tx), acts, WriteState(s.meta.id, NextState(s.meta, s.t.rx.rsp[0], rx, tx)));
  }

  /** The same for a close of the application interface. */
  lemma {:induction false} TxReadModifyWrite(s: System, acts: seq<Action>)
    requires Inv(s) && s.app == CloseConn && s.t.tx.rsp != []
    requires TxLockedThroughout(AppClient(s), acts)
    ensures var t := Run(AppClient(s), acts).t;
            && s.t.tx.rsp == [s.t.table[s.closeId]]
            && if t.tx.locked then t.tx.id == s.closeId && t.table[s.closeId] == s.t.tx.rsp[0]
               else t.table[s.closeId] == if s.t.tx.rsp[0] == Established then FinWait1 else s.t.tx.rsp[0]
  {
    Holders(s);
    AppActInv(s);
    TxHeldRun(AppClient(s), acts, WriteState(s.closeId, CloseState(s.t.tx.rsp[0])));
  }

  // ----- legal transitions over whole runs -----

  /** A change of an entry by the table, with its cause: the RX engine's write along a segment edge, the
      application's close, the application's open, or a timer closing a session nobody holds. */
  predicate LegalChange(id: SessionId, t: TableView, u: TableView) {
    var from, to := t.table[id], u.table[id];
    || from == to
    || (SegmentEdge(from, to) && Holds(t.rx, id) && !u.rx.locked)
    || (from.Established? && to.FinWait1? && Holds(t.tx, id) && !u.tx.locked)
    || (to.SynSent? && Pending(t.tx) != [] && Pending(t.tx)[0] == WriteState(id, SynSent))
    || (to.Closed? && !Held(t, id)
        && ((t.closeWait && t.closeId == id) || (t.timerReq != [] && t.timerReq[0] == id)))
  }

  lemma {:induction false} TxChangeIsLegal(s: System, id: SessionId)
    requires Inv(s)
    ensures s.t.tx.req != [] && !s.t.tx.wait ==> LegalChange(id, s.t, TakeTx(s.t))
    ensures s.t.tx.wait ==> LegalChange(id, s.t, RetryTx(s.t))
  {
    var p := s.t.tx;
    if p.req != [] && !p.wait {
      PendingAfterTake(p, s.t.table, s.t.rx);
    }
    if !p.locked && Pending(p) != [] {
      AppQueueHead(Pending(p), s.app, s.closeId);
    }
  }

  lemma {:induction false} RxChangeIsLegal(s: System, id: SessionId)
    requires Inv(s)
    ensures s.t.rx.req != [] && !s.t.rx.wait ==> LegalChange(id, s.t, TakeRx(s.t))
    ensures s.t.rx.wait ==> LegalChange(id, s.t, RetryRx(s.t))
  {
    var p := s.t.rx;
    if p.req != [] && !p.wait {
      PendingAfterTake(p, s.t.table, s.t.tx);
    }
    if p.wait {
      assert Pending(p)[0] == p.access;
    }
  }

  lemma {:induction false} ChangeIsLegal(s: System, a: Action, id: SessionId)
    requires Inv(s)
    ensures LegalChange(id, s.t, Apply(s, a).t)
  {
    if a == TableAct {
      TxChangeIsLegal(s, id);
      RxChangeIsLegal(s, id);
    }
  }

  /** Safety over whole runs from power-up: every change of every entry is one of the legal ones, and
      FIN_WAIT_2 never appears. */
  lemma {:induction false} LegalRuns(s: System, acts: seq<Action>, a: Action, id: SessionId)
    requires Initial(s)
    ensures LegalChange(id, Run(s, acts).t, Apply(Run(s, acts), a).t)
    ensures Run(s, acts).t.table[id] != FinWait2
  {
    InitialInv(s);
    RunInv(s, acts);
    ChangeIsLegal(Run(s, acts), a, id);
  }

  // ----- released session IDs and answered queries -----

  /** A timer's request to close session id is carried out. */
  predicate TimerCloses(t: TableView, u: TableView, id: SessionId) {
    !u.closeWait
    && if t.closeWait then t.closeId == id else t.timerReq != [] && t.timerReq[0] == id && u.timerReq == t.timerReq[1..]
  }

  /** The RX engine's write to session id is carried out. */
  predicate RxWrites(t: TableView, u: TableView, id: SessionId) { Holds(t.rx, id) && !u.rx.locked }

  /** The session ID given to the lookup controller for release, and its entry is closed. */
  predicate Releases(t: TableView, u: TableView, id: SessionId) {
    u.release == t.release + [id] && u.table[id].Closed?
  }

  /** What one step of the table lets out for session id. */
  predicate Lets(t: TableView, u: TableView, id: SessionId) {
    && (TimerCloses(t, u, id) || (RxWrites(t, u, id) && u.table[id].Closed?) <==> Releases(t, u, id))
    && (!t.table[id].Closed? && u.table[id].Closed? ==> Releases(t, u, id))
  }

  lemma {:induction false} TxWritesAre(s: System)
    requires Inv(s) && Pending(s.t.tx) != [] && Pending(s.t.tx)[0].WriteState?
    ensures var q := Pending(s.t.tx)[0];
            q.state.SynSent? || (s.t.tx.locked && q == WriteState(s.t.tx.id, CloseState(s.t.table[s.t.tx.id])))
  {
    if !s.t.tx.locked {
      AppQueueHead(Pending(s.t.tx), s.app, s.closeId);
    }
  }

  lemma {:induction false} TxLets(s: System, u: TableView, id: SessionId)
    requires Inv(s)
    requires (s.t.tx.req != [] && !s.t.tx.wait && u == TakeTx(s.t)) || (s.t.tx.wait && u == RetryTx(s.t))
    requires s.t.tx.wait ==> s.t.closeWait || s.t.timerReq == []
    ensures Lets(s.t, u, id)
  {
    SnocIs(s.t.release, id, id);
    assert !TimerCloses(s.t, u, id);
    if Pending(s.t.tx) != [] && Pending(s.t.tx)[0].WriteState? {
      TxWritesAre(s);
    }
    if s.t.tx.req != [] && !s.t.tx.wait {
      PendingAfterTake(s.t.tx, s.t.table, s.t.rx);
    }
  }

  lemma {:induction false} RxLets(s: System, u: TableView, q: StateQuery, id: SessionId)
    requires Inv(s) && Pending(s.t.rx) != [] && q == Pending(s.t.rx)[0]
    requires (s.t.rx.req != [] && !s.t.rx.wait && u == TakeRx(s.t)) || (s.t.rx.wait && u == RetryRx(s.t))
    requires s.t.rx.wait ==> s.t.closeWait || s.t.timerReq == []
    ensures Lets(s.t, u, id)
  {
    SnocIs(s.t.release, q.id, id);
    assert !TimerCloses(s.t, u, id);
    Holders(s);
    RxChangeIsLegal(s, id);
  }

  lemma {:induction false} CloseLets(t: TableView, u: TableView, k: SessionId, id: SessionId)
    requires (t.timerReq != [] && !t.closeWait && u == TakeClose(t) && k == t.timerReq[0])
             || (t.closeWait && u == RetryClose(t) && k == t.closeId)
    ensures Lets(t, u, id)
  {
    SnocIs(t.release, k, id);
  }

  lemma {:induction false} StepLets(s: System, id: SessionId)
    requires Inv(s)
    ensures Lets(s.t, TableStep(s.t), id)
  {
    var t, u := s.t, TableStep(s.t);
    if t.tx.req != [] && !t.tx.wait {
      TxLets(s, u, id);
    } else if t.appReq != [] {
      SnocIs(t.release, id, id);
    } else if t.rx.req != [] && !t.rx.wait {
      RxLets(s, u, t.rx.req[0], id);
    } else if t.timerReq != [] && !t.closeWait {
      CloseLets(t, u, t.timerReq[0], id);
    } else if t.tx.wait {
      TxLets(s, u, id);
    } else if t.rx.wait {
      RxLets(s, u, t.rx.access, id);
    } else if t.closeWait {
      CloseLets(t, u, t.closeId, id);
    } else {
      SnocIs(t.release, id, id);
    }
  }

  lemma {:induction false} StepReleases(t: TableView) returns (k: SessionId)
    ensures var u := TableStep(t); u.release == t.release || Releases(t, u, k)
  {
    k := if t.rx.req != [] && !t.rx.wait then t.rx.req[0].id
         else if t.timerReq != [] && !t.closeWait then t.timerReq[0]
         else if t.rx.wait then t.rx.access.id
         else t.closeId;
  }

  /** A query of the application is answered with the entry at that moment, and only a query is answered. */
  predicate Answers(t: TableView, u: TableView) {
    if u.appReq == t.appReq then u.appRsp == t.appRsp
    else t.appReq != [] && u.appReq == t.appReq[1..] && u.appRsp == t.appRsp + [u.table[t.appReq[0]]] && u.table == t.table
  }

  lemma {:induction false} StepAnswers(t: TableView)
    ensures Answers(t, TableStep(t))
  {
  }

  /** The requests of a port are carried out one by one in the order they were sent: a write leaves its state
      in the table, a read is answered with the entry and locks it. */
  predicate Carried(p: Port, before: States, g: Port, after: States) {
    if Pending(g) == Pending(p) then g.rsp == p.rsp && g.locked == p.locked && g.id == p.id
    else
      && Pending(p) != [] && Pending(g) == Pending(p)[1..]
      && match Pending(p)[0]
         case WriteState(id, state) => after == before[id := state] && g.rsp == p.rsp && !g.locked
         case ReadState(id) => after == before && g.rsp == p.rsp + [before[id]] && Holds(g, id)
  }

  lemma {:induction false} TakeCarries(p: Port, table: States, other: Port)
    requires p.req != [] && !p.wait
    ensures Carried(p, table, Take(p, table, other), StoreUnless(Holds(other, p.req[0].id), table, p.req[0]))
  {
    PendingAfterTake(p, table, other);
  }

  lemma {:induction false} RetryCarries(p: Port, table: States, other: Port)
    requires p.wait
    ensures Carried(p, table, Retry(p, table, other), StoreUnless(Holds(other, p.access.id), table, p.access))
  {
    PendingAfterRetry(p, table, other);
  }

  lemma {:induction false} StepCarries(t: TableView)
    ensures Carried(t.rx, t.table, TableStep(t).rx, TableStep(t).table)
    ensures Carried(t.tx, t.table, TableStep(t).tx, TableStep(t).table)
  {
    if t.tx.req != [] && !t.tx.wait {
      TakeCarries(t.tx, t.table, t.rx);
    } else if t.appReq != [] {
    } else if t.rx.req != [] && !t.rx.wait {
      TakeCarries(t.rx, t.table, t.tx);
    } else if t.timerReq != [] && !t.closeWait {
    } else if t.tx.wait {
      RetryCarries(t.tx, t.table, t.rx);
    } else if t.rx.wait {
      RetryCarries(t.rx, t.table, t.tx);
    }
  }

  /** Over any run from power-up: a session ID goes to the lookup controller exactly when a timer's close or
      the RX engine's write leaves its entry closed, and so with every step that closes an entry; nothing else
      is ever released, and the application's queries are answered with the entry. */
  lemma {:induction false} ReleasedRuns(s: System, acts: seq<Action>, id: SessionId) returns (k: SessionId)
    requires Initial(s)
    ensures var t, u := Run(s, acts).t, Apply(Run(s, acts), TableAct).t;
            && Lets(t, u, id)
            && (u.release == t.release || Releases(t, u, k))
            && Answers(t, u)
  {
    InitialInv(s);
    RunInv(s, acts);
    StepLets(Run(s, acts), id);
    k := StepReleases(Run(s, acts).t);
    StepAnswers(Run(s, acts).t);
  }

  /** The write that releases need not close anything: after power-up, with every session closed, any segment but a SYN has the ID it was
      looked up with released. */
  lemma {:induction false} ReleasedWhenClosed(s: System, m: SegmentMeta, rx: RxSarEntry, tx: TxSarReply)
    requires Initial(s) && !IsSyn(m)
    ensures var asked := Apply(Apply(s, Segment(m)), RxAct(rx, tx));
            var answered := Apply(Apply(asked, TableAct), RxAct(rx, tx));
            answered.t.table == s.t.table && answered.t.release == [] && Apply(answered, TableAct).t.release == [m.id]
  {
    assert NextState(m, Closed, rx, tx) == Closed;
  }

  /** The other steps release nothing and answer nothing; what was sent is taken in order. */
  lemma {:induction false} OnlyTableReleases(s: System, a: Action)
    requires a != TableAct
    ensures var t, u := s.t, Apply(s, a).t;
            && u.release == (if a == TakeRelease && t.release != [] then t.release[1..] else t.release)
            && u.appRsp == (if a == TakeAppReply && t.appRsp != [] then t.appRsp[1..] else t.appRsp)
  {
  }

  // ----- no deadlock -----

  predicate Blocked(p: Port, other: Port) { p.wait && Holds(other, p.access.id) }

  /** A delayed process holds no lock, so two processes never wait for each other, and the release of a lock
      is never delayed. */
  lemma {:induction false} WaitersHoldNothing(s: System)
    requires Inv(s)
    ensures s.t.rx.wait ==> !s.t.rx.locked
    ensures s.t.tx.wait ==> !s.t.tx.locked
    ensures !(Blocked(s.t.rx, s.t.tx) && Blocked(s.t.tx, s.t.rx))
    ensures s.t.rx.locked && s.t.rx.req != [] ==> !TakeRx(s.t).rx.wait && !TakeRx(s.t).rx.locked
    ensures s.t.tx.locked && s.t.tx.req != [] ==> !TakeTx(s.t).tx.wait && !TakeTx(s.t).tx.locked
  {
    Holders(s);
  }

  /** Work left for the processes: each pending item weighs the number of moves it can still cause. */
  function QueryWork(q: seq<StateQuery>): nat {
    if q == [] then 0 else (if q[0].ReadState? then 6 else 2) + QueryWork(q[1..])
  }

  lemma {:induction false} QueryWorkAppend(q: seq<StateQuery>, r: StateQuery)
    ensures QueryWork(q + [r]) == QueryWork(q) + if r.ReadState? then 6 else 2
  {
    if q == [] {
      assert q + [r] == [r];
    } else {
      assert (q + [r])[1..] == q[1..] + [r];
      QueryWorkAppend(q[1..], r);
    }
  }

  function PortWork(p: Port): nat {
    QueryWork(p.req) + (if !p.wait then 0 else if p.access.ReadState? then 5 else 1) + 4 * |p.rsp|
  }

  function Work(s: System): nat {
    8 * |s.metaIn| + 4 * |s.lookupRsp| + 8 * |s.closeReq| + PortWork(s.t.rx) + PortWork(s.t.tx)
    + 2 * |s.t.timerReq| + (if s.t.closeWait then 1 else 0) + |s.t.appReq|
  }

  predicate Internal(a: Action) { a.TableAct? || a.RxAct? || a.AppAct? }

  lemma {:induction false} PortFinishesWork(p: Port, table: States, other: Port)
    ensures p.req != [] && !p.wait ==> PortWork(Take(p, table, other)) < PortWork(p)
    ensures p.wait && !Holds(other, p.access.id) ==> PortWork(Retry(p, table, other)) < PortWork(p)
  {
  }

  lemma {:induction false} TableFinishesWork(s: System)
    ensures var u := s.(t := TableStep(s.t)); u == s || Work(u) < Work(s)
  {
    PortFinishesWork(s.t.rx, s.t.table, s.t.tx);
    PortFinishesWork(s.t.tx, s.t.table, s.t.rx);
  }

  lemma {:induction false} RxFinishesWork(s: System, rx: RxSarEntry, tx: TxSarReply)
    ensures RxClient(s, rx, tx) == s || Work(RxClient(s, rx, tx)) < Work(s)
  {
    if RxClient(s, rx, tx) != s {
      QueryWorkAppend(s.t.rx.req, RxClient(s, rx, tx).t.rx.req[|s.t.rx.req|]);
    }
  }

  lemma {:induction false} SendWork(p: Port, r: StateQuery)
    ensures PortWork(p.(req := p.req + [r])) == PortWork(p) + if r.ReadState? then 6 else 2
  {
    QueryWorkAppend(p.req, r);
  }

  lemma {:induction false} AppFinishesWork(s: System)
    ensures AppClient(s) == s || Work(AppClient(s)) < Work(s)
  {
    match s.app
    case Idle =>
      if s.lookupRsp != [] {
        SendWork(s.t.tx, WriteState(s.lookupRsp[0].id, SynSent));
      } else if s.closeReq != [] {
        SendWork(s.t.tx, ReadState(s.closeReq[0]));
      }
    case CloseConn =>
      if s.t.tx.rsp != [] {
        SendWork(s.t.tx.(rsp := s.t.tx.rsp[1..]), WriteState(s.closeId, CloseState(s.t.tx.rsp[0])));
      }
  }

  /** Without new input every step of a process either changes nothing or leaves less work, so no livelock. */
  lemma {:induction false} StepsFinishWork(s: System, a: Action)
    requires Internal(a)
    ensures Apply(s, a) == s || Work(Apply(s, a)) < Work(s)
  {
    match a
    case TableAct => TableFinishesWork(s);
    case RxAct(rx, tx) => RxFinishesWork(s, rx, tx);
    case AppAct => AppFinishesWork(s);
  }

  lemma {:induction false} RxMoves(s: System, rx: RxSarEntry, tx: TxSarReply)
    requires Inv(s) && (s.t.rx.rsp != [] || (s.fsmState.Load? && s.metaIn != []))
    ensures Apply(s, RxAct(rx, tx)) != s
  {}

  /** When neither the table nor the RX engine has anything to do, the work left is the application interface's. */
  lemma {:induction false} AppMoves(s: System)
    requires Inv(s) && Work(s) > 0 && TableStep(s.t) == s.t && s.t.rx.rsp == [] && !(s.fsmState.Load? && s.metaIn != [])
    ensures Apply(s, AppAct) != s
  {}

  /** Deadlock freedom: as long as any work is left, some process can take a step that finishes part of it. */
  lemma {:induction false} NoDeadlock(s: System, rx: RxSarEntry, tx: TxSarReply) returns (a: Action)
    requires Inv(s) && Work(s) > 0
    ensures Internal(a) && Work(Apply(s, a)) < Work(s)
  {
    if TableStep(s.t) != s.t {
      a := TableAct;
    } else if s.t.rx.rsp != [] || (s.fsmState.Load? && s.metaIn != []) {
      a := RxAct(rx, tx);
      RxMoves(s, rx, tx);
    } else {
      a := AppAct;
      AppMoves(s);
    }
    StepsFinishWork(s, a);
  }

  /** With no work left nothing is locked and nobody waits. */
  lemma {:induction false} IdleWhenDone(s: System)
    requires Inv(s) && Work(s) == 0
    ensures !s.t.rx.locked && !s.t.tx.locked && !s.t.rx.wait && !s.t.tx.wait && !s.t.closeWait
    ensures s.fsmState.Load? && s.app == Idle
  {
  }
}
