/** The table of connection states with its two session locks (state_table), and the application's
    open and close interface (tx_app_if), which is one of its clients. */
module StateTable {
  import opened ToeTypes

  type States = t: seq<SessionState> | |t| == MAX_SESSIONS witness seq(MAX_SESSIONS, _ => Closed)

  /** What the table keeps for one locking client (the RX engine or the TX application interface): its lock,
      a delayed access, and its two streams. */
  datatype Port = Port(
    id: SessionId, locked: bool, access: StateQuery, wait: bool, req: seq<StateQuery>, rsp: seq<SessionState>)

  /** Static variables and streams of state_table. */
  datatype TableView = TableView(
    table: States, rx: Port, tx: Port, closeId: SessionId, closeWait: bool,
    appReq: seq<SessionId>, timerReq: seq<SessionId>, appRsp: seq<SessionState>, release: seq<SessionId>)

  predicate Holds(p: Port, id: SessionId) { p.locked && p.id == id }

  /** A granted access: a read replies and locks, a write stores and unlocks. */
  function Grant(p: Port, table: States, q: StateQuery): Port {
    match q
    case ReadState(id) => p.(rsp := p.rsp + [table[id]], id := id, locked := true)
    case WriteState(_, _) => p.(locked := false)
  }

  function Store(table: States, q: StateQuery): States {
    if q.WriteState? then table[q.id := q.state] else table
  }

  /** The next request of a port: granted, or kept aside while the other port holds its session. */
  function Take(p: Port, table: States, other: Port): Port
    requires p.req != []
  {
    if Holds(other, p.req[0].id) then p.(req := p.req[1..], access := p.req[0], wait := true)
    else Grant(p, table, p.req[0]).(req := p.req[1..], access := p.req[0])
  }

  function Retry(p: Port, table: States, other: Port): Port {
    if Holds(other, p.access.id) then p else Grant(p, table, p.access).(wait := false)
  }

  function StoreUnless(blocked: bool, table: States, q: StateQuery): States {
    if blocked then table else Store(table, q)
  }

  /** The RX engine's write of Closed also releases the session ID. */
  function ReleaseUnless(blocked: bool, release: seq<SessionId>, q: StateQuery): seq<SessionId> {
    if !blocked && q.WriteState? && q.state.Closed? then release + [q.id] else release
  }

  function TakeTx(v: TableView): TableView
    requires v.tx.req != []
  {
    v.(tx := Take(v.tx, v.table, v.rx),
       table := StoreUnless(Holds(v.rx, v.tx.req[0].id), v.table, v.tx.req[0]))
  }

  function TakeRx(v: TableView): TableView
    requires v.rx.req != []
  {
    v.(rx := Take(v.rx, v.table, v.tx),
       table := StoreUnless(Holds(v.tx, v.rx.req[0].id), v.table, v.rx.req[0]),
       release := ReleaseUnless(Holds(v.tx, v.rx.req[0].id), v.release, v.rx.req[0]))
  }

  function RetryTx(v: TableView): TableView {
    v.(tx := Retry(v.tx, v.table, v.rx), table := StoreUnless(Holds(v.rx, v.tx.access.id), v.table, v.tx.access))
  }

  function RetryRx(v: TableView): TableView {
    v.(rx := Retry(v.rx, v.table, v.tx),
       table := StoreUnless(Holds(v.tx, v.rx.access.id), v.table, v.rx.access),
       release := ReleaseUnless(Holds(v.tx, v.rx.access.id), v.release, v.rx.access))
  }

  predicate Held(v: TableView, id: SessionId) { Holds(v.rx, id) || Holds(v.tx, id) }

  function GrantClose(v: TableView, id: SessionId): TableView {
    v.(table := v.table[id := Closed], release := v.release + [id])
  }

  function TakeClose(v: TableView): TableView
    requires v.timerReq != []
  {
    var u := v.(timerReq := v.timerReq[1..], closeId := v.timerReq[0]);
    if Held(v, v.timerReq[0]) then u.(closeWait := true) else GrantClose(u, v.timerReq[0])
  }

  function RetryClose(v: TableView): TableView {
    if Held(v, v.closeId) then v else GrantClose(v, v.closeId).(closeWait := false)
  }

  /** One step: the first source, in the code's priority order, that has something to do.
      Delayed accesses come after all new requests. */
  function TableStep(v: TableView): TableView {
    if v.tx.req != [] && !v.tx.wait then TakeTx(v)
    else if v.appReq != [] then v.(appReq := v.appReq[1..], appRsp := v.appRsp + [v.table[v.appReq[0]]])
    else if v.rx.req != [] && !v.rx.wait then TakeRx(v)
    else if v.timerReq != [] && !v.closeWait then TakeClose(v)
    else if v.tx.wait then RetryTx(v)
    else if v.rx.wait then RetryRx(v)
    else if v.closeWait then RetryClose(v)
    else v
  }

  class Table {
    var table: States
    var rxSessionID: SessionId
    var rxSessionLocked: bool
    var rxAccess: StateQuery
    var rxWait: bool
    var txSessionID: SessionId
    var txSessionLocked: bool
    var txAccess: StateQuery
    var txWait: bool
    var closeSessionID: SessionId
    var closeWait: bool
    var rxReq: seq<StateQuery>
    var txReq: seq<StateQuery>
    var appReq: seq<SessionId>
    var timerReq: seq<SessionId>
    var rxRsp: seq<SessionState>
    var txRsp: seq<SessionState>
    var appRsp: seq<SessionState>
    var release: seq<SessionId>

    ghost function View(): TableView reads this {
      TableView(table, Port(rxSessionID, rxSessionLocked, rxAccess, rxWait, rxReq, rxRsp),
                Port(txSessionID, txSessionLocked, txAccess, txWait, txReq, txRsp),
                closeSessionID, closeWait, appReq, timerReq, appRsp, release)
    }

    method AccessTx()
      modifies `table, `txRsp, `txSessionID, `txSessionLocked
      ensures View() == old(View()).(tx := Grant(old(View().tx), old(table), old(txAccess)),
                                     table := Store(old(table), old(txAccess)))
    {
      match txAccess
      case WriteState(id, state) =>
        table := table[id := state];
        txSessionLocked := false;
      case ReadState(id) =>
        txRsp := txRsp + [table[id]];
        txSessionID := id;
        txSessionLocked := true;
    }

    method AccessRx()
      modifies `table, `rxRsp, `rxSessionID, `rxSessionLocked, `release
      ensures View() == old(View()).(rx := Grant(old(View().rx), old(table), old(rxAccess)),
                                     table := Store(old(table), old(rxAccess)),
                                     release := ReleaseUnless(false, old(release), old(rxAccess)))
    {
      match rxAccess
      case WriteState(id, state) =>
        if state.Closed? {
          release := release + [id];
        }
        table := table[id := state];
        rxSessionLocked := false;
      case ReadState(id) =>
        rxRsp := rxRsp + [table[id]];
        rxSessionID := id;
        rxSessionLocked := true;
    }

    method AccessClose()
      modifies `table, `release
      ensures View() == GrantClose(old(View()), closeSessionID)
    {
      table := table[closeSessionID := Closed];
      release := release + [closeSessionID];
    }

    method NewTxAccess()
      requires txReq != []
      modifies this
      ensures View() == TakeTx(old(View()))
    {
      txAccess, txReq := txReq[0], txReq[1..];
      if txAccess.id == rxSessionID && rxSessionLocked {
        txWait := true;
      } else {
        AccessTx();
      }
    }

    method NewRxAccess()
      requires rxReq != []
      modifies this
      ensures View() == TakeRx(old(View()))
    {
      rxAccess, rxReq := rxReq[0], rxReq[1..];
      if rxAccess.id == txSessionID && txSessionLocked {
        rxWait := true;
      } else {
        AccessRx();
      }
    }

    method NewClose()
      requires timerReq != []
      modifies this
      ensures View() == TakeClose(old(View()))
    {
      closeSessionID, timerReq := timerReq[0], timerReq[1..];
      if (closeSessionID == rxSessionID && rxSessionLocked) || (closeSessionID == txSessionID && txSessionLocked) {
        closeWait := true;
      } else {
        AccessClose();
      }
    }

    method WaitingTx()
      modifies this
      ensures View() == RetryTx(old(View()))
    {
      if txAccess.id != rxSessionID || !rxSessionLocked {
        AccessTx();
        txWait := false;
      }
    }

    method WaitingRx()
      modifies this
      ensures View() == RetryRx(old(View()))
    {
      if rxAccess.id != txSessionID || !txSessionLocked {
        AccessRx();
        rxWait := false;
      }
    }

    method WaitingClose()
      modifies this
      ensures View() == RetryClose(old(View()))
    {
      if (closeSessionID != rxSessionID || !rxSessionLocked) && (closeSessionID != txSessionID || !txSessionLocked) {
        AccessClose();
        closeWait := false;
      }
    }

    method Step()
      modifies this
      ensures View() == TableStep(old(View()))
    {
      if txReq != [] && !txWait {
        NewTxAccess();
      } else if appReq != [] {
        var id := appReq[0];
        appReq := appReq[1..];
        appRsp := appRsp + [table[id]];
      } else if rxReq != [] && !rxWait {
        NewRxAccess();
      } else if timerReq != [] && !closeWait {
        NewClose();
      } else if txWait {
        WaitingTx();
      } else if rxWait {
        WaitingRx();
      } else if closeWait {
        WaitingClose();
      }
    }
  }

  // ----- tx_app_if -----

  datatype LookupReply = LookupReply(id: SessionId, hit: bool)
  datatype OpenStatus = OpenStatus(id: SessionId, success: bool)
  datatype AppEvent = SynEvent(id: SessionId) | FinEvent(id: SessionId)
  datatype AppState = Idle | CloseConn

  /** Static variables and streams of tx_app_if; both status streams only pass through. */
  datatype AppView = AppView(
    state: AppState, closeId: SessionId,
    lookupRsp: seq<LookupReply>, established: seq<OpenStatus>, timedOut: seq<OpenStatus>, closeReq: seq<SessionId>,
    stateRsp: seq<SessionState>,
    stateReq: seq<StateQuery>, openRsp: seq<OpenStatus>, events: seq<AppEvent>)

  predicate Closable(st: SessionState) { st.Established? || st.FinWait2? || st.FinWait1? }

  /** The state written for a close of a session read in state st. */
  function CloseState(st: SessionState): SessionState { if Closable(st) then FinWait1 else st }

  function AppStep(v: AppView): AppView {
    match v.state
    case Idle =>
      if v.lookupRsp != [] then
        var r, u := v.lookupRsp[0], v.(lookupRsp := v.lookupRsp[1..]);
        if r.hit then u.(events := v.events + [SynEvent(r.id)], stateReq := v.stateReq + [WriteState(r.id, SynSent)])
        else u.(openRsp := v.openRsp + [OpenStatus(r.id, false)])
      else if v.established != [] then
        v.(established := v.established[1..], openRsp := v.openRsp + [v.established[0]])
      else if v.timedOut != [] then
        v.(timedOut := v.timedOut[1..], openRsp := v.openRsp + [v.timedOut[0]])
      else if v.closeReq != [] then
        v.(closeReq := v.closeReq[1..], closeId := v.closeReq[0], state := CloseConn,
           stateReq := v.stateReq + [ReadState(v.closeReq[0])])
      else v
    case CloseConn =>
      if v.stateRsp == [] then v
      else
        v.(state := Idle, stateRsp := v.stateRsp[1..],
           stateReq := v.stateReq + [WriteState(v.closeId, CloseState(v.stateRsp[0]))],
           events := if Closable(v.stateRsp[0]) then v.events + [FinEvent(v.closeId)] else v.events)
  }

  /** A FIN goes out exactly with the write of FIN_WAIT_1, a SYN exactly with that of SYN_SENT for a session
      that was found. The rest of what is taken in becomes one status: a refused open, or one passed on. */
  lemma {:induction false} AppOutcome(v: AppView, id: SessionId) returns (told: OpenStatus)
    ensures var w := AppStep(v);
            && (w.events == v.events + [FinEvent(id)] <==> w.stateReq == v.stateReq + [WriteState(id, FinWait1)])
            && (v.state.Idle? ==>
                  (w.events == v.events + [SynEvent(id)] <==> w.stateReq == v.stateReq + [WriteState(id, SynSent)])
                  && (w.events == v.events + [SynEvent(id)] <==> v.lookupRsp == [LookupReply(id, true)] + w.lookupRsp))
    ensures var w := AppStep(v);
            if w.openRsp != v.openRsp then
              && w.openRsp == v.openRsp + [told] && w.events == v.events
              && (|| [told] + w.established == v.established
                  || [told] + w.timedOut == v.timedOut
                  || (!told.success && [LookupReply(told.id, false)] + w.lookupRsp == v.lookupRsp))
            else
              w.established == v.established && w.timedOut == v.timedOut
              && (w.lookupRsp != v.lookupRsp ==> |w.events| == |v.events| + 1)
  {
    var w := AppStep(v);
    told := if |w.openRsp| > |v.openRsp| then w.openRsp[|v.openRsp|] else OpenStatus(id, false);
    if |w.events| > |v.events| {
      SnocIs(v.events, w.events[|v.events|], FinEvent(id));
      SnocIs(v.events, w.events[|v.events|], SynEvent(id));
    }
    if |w.stateReq| > |v.stateReq| {
      SnocIs(v.stateReq, w.stateReq[|v.stateReq|], WriteState(id, FinWait1));
      SnocIs(v.stateReq, w.stateReq[|v.stateReq|], WriteState(id, SynSent));
    }
  }

  class TxAppIf {
    var state: AppState
    var closeSessionID: SessionId
    var lookupRsp: seq<LookupReply>
    var established: seq<OpenStatus>
    var timedOut: seq<OpenStatus>
    var closeReq: seq<SessionId>
    var stateRsp: seq<SessionState>
    var stateReq: seq<StateQuery>
    var openRsp: seq<OpenStatus>
    var events: seq<AppEvent>

    ghost function View(): AppView reads this {
      AppView(state, closeSessionID, lookupRsp, established, timedOut, closeReq, stateRsp, stateReq, openRsp, events)
    }

    method Step()
      modifies this
      ensures View() == AppStep(old(View()))
    {
      match state
      case Idle =>
        if lookupRsp != [] {
          var session := lookupRsp[0];
          lookupRsp := lookupRsp[1..];
          if session.hit {
            events := events + [SynEvent(session.id)];
            stateReq := stateReq + [WriteState(session.id, SynSent)];
          } else {
            openRsp := openRsp + [OpenStatus(session.id, false)];
          }
        } else if established != [] {
          openRsp, established := openRsp + [established[0]], established[1..];
        } else if timedOut != [] {
          openRsp, timedOut := openRsp + [timedOut[0]], timedOut[1..];
        } else if closeReq != [] {
          closeSessionID, closeReq := closeReq[0], closeReq[1..];
          stateReq := stateReq + [ReadState(closeSessionID)];
          state := CloseConn;
        }
      case CloseConn =>
        if stateRsp != [] {
          var st := stateRsp[0];
          stateRsp := stateRsp[1..];
          if st.Established? || st.FinWait2? || st.FinWait1? {
            stateReq := stateReq + [WriteState(closeSessionID, FinWait1)];
            events := events + [FinEvent(closeSessionID)];
          } else {
            stateReq := stateReq + [WriteState(closeSessionID, st)];
          }
          state := Idle;
        }
    }
  }
}
