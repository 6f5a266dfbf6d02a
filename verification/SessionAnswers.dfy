/** What the clients of the session lookup are told: beside its runs, for each answer the query it answers, what the memory held for
    the queried tuple when the lookup was served, and the session ID that was free when the answer was decided. */
module SessionAnswers {
  import opened ToeTypes
  import opened SessionLookup

  /** A query, the ID its tuple was found with, and the next free ID. */
  datatype Basis = Basis(query: Query, held: Option<SessionId>, next: Option<SessionId>)

  /** Queries asked; what the last lookup found; the query that waits for its insert; the queries answered, by client. */
  datatype Log = Log(
    rxAsked: seq<Query>, txAsked: seq<Query>, held: Option<SessionId>, pending: seq<Basis>, rx: seq<Basis>, tx: seq<Basis>)

  function HeldFor(t: map<ThreeTuple, SessionId>, k: ThreeTuple): Option<SessionId> { if k in t then Some(t[k]) else None }

  function NextFree(free: seq<SessionId>): Option<SessionId> { if free == [] then None else Some(free[0]) }

  /** A new session is created for it. */
  predicate Creating(b: Basis) { b.held.None? && b.query.allowCreation && b.next.Some? }

  function Answered(g: Log, b: Basis): Log {
    match b.query.source
    case FromRx => g.(rx := g.rx + [b])
    case FromTxApp => g.(tx := g.tx + [b])
  }

  function LogReply(g: Log, h: Handler, lookupRsp: seq<CamReply>, insertRsp: seq<UpdateReply>, free: seq<SessionId>): Log {
    match h.state
    case LupReq => g
    case LupRsp =>
      if lookupRsp == [] || h.queryCache == [] then g
      else
        var b := Basis(h.queryCache[0], g.held, NextFree(free));
        if Creating(b) then g.(pending := [b]) else Answered(g, b)
    case UpdRsp =>
      if insertRsp == [] || g.pending == [] then g else Answered(g.(pending := []), g.pending[0])
  }

  function LogNext(g: Log, s: System, a: Action): Log {
    match a
    case RxQuery(t, allow) => g.(rxAsked := g.rxAsked + [Query(t, allow, FromRx)])
    case TxQuery(t) => g.(txAsked := g.txAsked + [Query(t, true, FromTxApp)])
    case CamLookupAct =>
      if s.cam.lookupReq != [] && s.h.queryCache != [] then g.(held := HeldFor(s.cam.table, s.h.queryCache[0].tuple)) else g
    case ReplyHandlerAct => LogReply(g, s.h, s.cam.lookupRsp, s.q.insertRsp, s.ids.free)
    case _ => g
  }

  // ----- right answers -----

  /** A hit with the ID the memory held; else a hit with the new ID if a session is created; else a miss, and only because creation
      was not allowed or no ID was free. */
  predicate RightAnswer(b: Basis, r: Reply) {
    if b.held.Some? then r == Reply(b.held.value, true)
    else if b.query.allowCreation && b.next.Some? then r == Reply(b.next.value, true)
    else !r.hit
  }

  predicate RightAnswers(bs: seq<Basis>, rs: seq<Reply>, source: Source) {
    && |bs| == |rs|
    && forall i {:trigger RightAnswer(bs[i], rs[i])} :: 0 <= i < |bs| ==> RightAnswer(bs[i], rs[i]) && bs[i].query.source == source
  }

  function Queries(bs: seq<Basis>): seq<Query> { seq(|bs|, i requires 0 <= i < |bs| => bs[i].query) }

  /** The query being served, if it is the given client's. */
  function Current(h: Handler, pending: seq<Basis>, source: Source): seq<Query> {
    if h.state.LupRsp? && h.queryCache != [] && h.queryCache[0].source == source then [h.queryCache[0]]
    else if h.state.UpdRsp? && pending != [] && pending[0].query.source == source then [pending[0].query]
    else []
  }

  function TxQueries(ts: seq<ThreeTuple>): seq<Query> {
    seq(|ts|, i requires 0 <= i < |ts| => Query(ts[i], true, FromTxApp))
  }

  // ----- the invariant -----

  /** The insert on its way carries the ID and the client of the query that waits. */
  predicate UpdateIs(u: Update, id: SessionId, source: Source) { u.Insert? ==> u.id == id && u.source == source }
  predicate UpdateReplyIs(r: UpdateReply, id: SessionId, source: Source) { r.Inserted? ==> r.id == id && r.source == source }

  predicate UpdatesAre(us: seq<Update>, id: SessionId, source: Source) {
    forall i {:trigger UpdateIs(us[i], id, source)} :: 0 <= i < |us| ==> UpdateIs(us[i], id, source)
  }

  predicate UpdateRepliesAre(rs: seq<UpdateReply>, id: SessionId, source: Source) {
    forall i {:trigger UpdateReplyIs(rs[i], id, source)} :: 0 <= i < |rs| ==> UpdateReplyIs(rs[i], id, source)
  }

  predicate PathIs(c: Cam, q: Fifos, id: SessionId, source: Source) {
    && UpdatesAre(q.insertReq, id, source) && UpdatesAre(c.updateReq, id, source)
    && UpdateRepliesAre(c.updateRsp, id, source) && UpdateRepliesAre(q.insertRsp, id, source)
  }

  predicate LookupIs(r: CamReply, held: Option<SessionId>) { r.hit == held.Some? && (held.Some? ==> r.id == held.value) }

  predicate ServedOk(h: Handler, c: Cam, q: Fifos, g: Log) {
    match h.state
    case LupReq => g.pending == []
    case LupRsp => g.pending == [] && (c.lookupRsp != [] ==> LookupIs(c.lookupRsp[0], g.held))
    case UpdRsp =>
      && |g.pending| == 1 && Creating(g.pending[0]) && h.insertTuples == [g.pending[0].query.tuple]
      && PathIs(c, q, g.pending[0].next.value, g.pending[0].query.source)
  }

  predicate RxAsks(rxReq: seq<Query>) { forall i :: 0 <= i < |rxReq| ==> rxReq[i].source == FromRx }

  predicate ClientsOk(h: Handler, g: Log) {
    && RightAnswers(g.rx, h.rxRsp, FromRx) && RightAnswers(g.tx, h.txRsp, FromTxApp) && RxAsks(h.rxReq)
    && Queries(g.rx) + Current(h, g.pending, FromRx) + h.rxReq == g.rxAsked
    && Queries(g.tx) + Current(h, g.pending, FromTxApp) + TxQueries(h.txReq) == g.txAsked
  }

  predicate LogOk(s: System, g: Log) { ServedOk(s.h, s.cam, s.q, g) && ClientsOk(s.h, g) }

  // ----- preservation -----

  lemma {:induction false} AnswersPush(bs: seq<Basis>, rs: seq<Reply>, source: Source, b: Basis, r: Reply)
    requires RightAnswers(bs, rs, source) && RightAnswer(b, r) && b.query.source == source
    ensures RightAnswers(bs + [b], rs + [r], source) && Queries(bs + [b]) == Queries(bs) + [b.query]
  {
    forall i | 0 <= i <= |bs| ensures RightAnswer((bs + [b])[i], (rs + [r])[i]) && (bs + [b])[i].query.source == source {
      if i < |bs| { assert RightAnswer(bs[i], rs[i]); }
    }
  }

  /** The query q leaves the handler with a right answer. */
  lemma {:induction false} ClientAnswered(h: Handler, g: Log, b: Basis, r: Reply, h': Handler)
    requires ClientsOk(h, g) && RightAnswer(b, r)
    requires h' == Answer(h, b.query.source, r).(queryCache := h'.queryCache, insertTuples := h'.insertTuples, state := LupReq)
    requires Current(h, g.pending, b.query.source) == [b.query] && !h.state.LupReq?
    requires forall c: Source :: c != b.query.source ==> Current(h, g.pending, c) == []
    ensures ClientsOk(h', Answered(g.(pending := []), b))
  {
    var g' := Answered(g.(pending := []), b);
    assert Current(h', g'.pending, FromRx) == [] && Current(h', g'.pending, FromTxApp) == [];
    match b.query.source
    case FromRx =>
      AnswersPush(g.rx, h.rxRsp, FromRx, b, r);
      assert Current(h, g.pending, FromTxApp) == [];
      assert Queries(g.rx) + [b.query] + [] + h.rxReq == Queries(g.rx) + [b.query] + h.rxReq;
    case FromTxApp =>
      AnswersPush(g.tx, h.txRsp, FromTxApp, b, r);
      assert Current(h, g.pending, FromRx) == [];
      assert Queries(g.tx) + [b.query] + [] + TxQueries(h.txReq) == Queries(g.tx) + [b.query] + TxQueries(h.txReq);
  }

  lemma {:induction false} NoneInserted(rs: seq<UpdateReply>, id: SessionId, source: Source)
    requires InsertedIds(rs) == []
    ensures UpdateRepliesAre(rs, id, source)
  {
    if rs != [] {
      NoneInserted(rs[1..], id, source);
      forall i | 0 <= i < |rs| ensures UpdateReplyIs(rs[i], id, source) {
        if i > 0 { assert UpdateReplyIs(rs[1..][i - 1], id, source); }
      }
    }
  }

  /** An idle path holds nothing of any client. */
  lemma {:induction false} IdlePath(c: Cam, q: Fifos, u: Update, id: SessionId, source: Source)
    requires Kinds(q) && PathLength(c, q) == 0 && UpdateIs(u, id, source)
    ensures PathIs(c, q.(insertReq := q.insertReq + [u]), id, source)
  {
    NoInserts(c.updateReq);
    NoneInserted(c.updateRsp, id, source);
    NoneInserted(q.insertRsp, id, source);
    assert forall i :: 0 <= i < |c.updateReq| ==> UpdateIs(c.updateReq[i], id, source);
  }

  lemma {:induction false} TxQueriesPop(ts: seq<ThreeTuple>)
    requires ts != []
    ensures TxQueries(ts) == [Query(ts[0], true, FromTxApp)] + TxQueries(ts[1..])
  {}

  /** A lookup starts: the query moves from its client's stream to the handler. */
  lemma {:induction false} StartKeeps(h: Handler, g: Log, c: Cam, q: Fifos)
    requires h.state.LupReq? && h.queryCache == [] && g.pending == [] && ClientsOk(h, g) && c.lookupRsp == []
    ensures ClientsOk(StartLookup(h).0, g) && ServedOk(StartLookup(h).0, c, q, g)
  {
    var h' := StartLookup(h).0;
    assert Current(h, g.pending, FromRx) == [] && Current(h, g.pending, FromTxApp) == [];
    if h.txReq != [] {
      TxQueriesPop(h.txReq);
      assert Current(h', g.pending, FromRx) == [] && Current(h', g.pending, FromTxApp) == [Query(h.txReq[0], true, FromTxApp)];
      assert Queries(g.tx) + [] + TxQueries(h.txReq)
          == Queries(g.tx) + [Query(h.txReq[0], true, FromTxApp)] + TxQueries(h.txReq[1..]);
    } else if h.rxReq != [] {
      assert h.rxReq[0].(source := FromRx) == h.rxReq[0];
      assert Current(h', g.pending, FromRx) == [h.rxReq[0]] && Current(h', g.pending, FromTxApp) == [];
      assert Queries(g.rx) + [] + h.rxReq == Queries(g.rx) + [h.rxReq[0]] + h.rxReq[1..];
    }
  }

  /** The lookup's answer is passed on, or an insert is requested. */
  lemma {:induction false} ReplyKeeps(s: System, g: Log, b: Basis, r: CamReply)
    requires Kinds(s.q) && Phase(s.h, s.cam, s.q) && LogOk(s, g) && s.h.state.LupRsp?
    requires s.cam.lookupRsp != [] && r == s.cam.lookupRsp[0] && b == Basis(s.h.queryCache[0], g.held, NextFree(s.ids.free))
    ensures LogOk(ReplyHandler(s), LogNext(g, s, ReplyHandlerAct))
  {
    var t := ReplyHandler(s);
    assert s.h.queryCache == [b.query];
    if Creating(b) {
      var u := Insert(b.query.tuple, b.next.value, r.source);
      var g' := g.(pending := [b]);
      IdlePath(s.cam, s.q, u, b.next.value, b.query.source);
      assert PathIs(t.cam, t.q, b.next.value, b.query.source);
      forall c: Source ensures Current(t.h, g'.pending, c) == Current(s.h, g.pending, c) {}
    } else {
      assert g.(pending := []) == g;
      ClientAnswered(s.h, g, b, Reply(r.id, r.hit), t.h);
    }
  }

  lemma {:induction false} InsertKeeps(s: System, g: Log, b: Basis, r: UpdateReply)
    requires Kinds(s.q) && Phase(s.h, s.cam, s.q) && LogOk(s, g) && s.h.state.UpdRsp?
    requires s.q.insertRsp != [] && r == s.q.insertRsp[0] && b == g.pending[0]
    ensures LogOk(ReplyHandler(s), LogNext(g, s, ReplyHandlerAct))
    ensures r == Inserted(b.next.value, b.query.source)
  {
    assert UpdateReplyIs(s.q.insertRsp[0], b.next.value, b.query.source);
    ClientAnswered(s.h, g, b, Reply(r.id, true), ReplyHandler(s).h);
  }

  lemma {:induction false} HandlerKeeps(s: System, g: Log)
    requires Kinds(s.q) && Phase(s.h, s.cam, s.q) && LogOk(s, g)
    ensures LogOk(ReplyHandler(s), LogNext(g, s, ReplyHandlerAct))
  {
    match s.h.state
    case LupReq => StartKeeps(s.h, g, s.cam, s.q);
    case LupRsp =>
      if s.cam.lookupRsp != [] {
        ReplyKeeps(s, g, Basis(s.h.queryCache[0], g.held, NextFree(s.ids.free)), s.cam.lookupRsp[0]);
      }
    case UpdRsp => if s.q.insertRsp != [] { InsertKeeps(s, g, g.pending[0], s.q.insertRsp[0]); }
  }

  /** The memory answers the one lookup with what it holds for the tuple of the query. */
  lemma {:induction false} LookupKeeps(s: System, g: Log)
    requires Phase(s.h, s.cam, s.q) && LogOk(s, g)
    ensures LogOk(s.(cam := CamLookup(s.cam)), LogNext(g, s, CamLookupAct))
  {
    if s.cam.lookupReq != [] {
      var g' := LogNext(g, s, CamLookupAct);
      assert s.h.state.LupRsp? && s.cam.lookupReq[0].key == s.h.queryCache[0].tuple;
      assert ClientsOk(s.h, g');
    }
  }

  lemma {:induction false} UpdatesPop(us: seq<Update>, id: SessionId, source: Source)
    requires UpdatesAre(us, id, source) && us != []
    ensures UpdateIs(us[0], id, source) && UpdatesAre(us[1..], id, source)
  {
    forall i | 0 <= i < |us| - 1 ensures UpdateIs(us[1..][i], id, source) { assert UpdateIs(us[i + 1], id, source); }
    assert UpdateIs(us[0], id, source);
  }

  lemma {:induction false} UpdateRepliesPop(rs: seq<UpdateReply>, id: SessionId, source: Source)
    requires UpdateRepliesAre(rs, id, source) && rs != []
    ensures UpdateReplyIs(rs[0], id, source) && UpdateRepliesAre(rs[1..], id, source)
  {
    forall i | 0 <= i < |rs| - 1 ensures UpdateReplyIs(rs[1..][i], id, source) { assert UpdateReplyIs(rs[i + 1], id, source); }
    assert UpdateReplyIs(rs[0], id, source);
  }

  /** An insert keeps its ID and client all the way: through the sender, the memory and the reply handler. */
  lemma {:induction false} PathKept(s: System, a: Action, id: SessionId, source: Source)
    requires Kinds(s.q) && PathIs(s.cam, s.q, id, source) && (a.UpdateSenderAct? || a.CamUpdateAct? || a.UpdateReplyAct?)
    ensures PathIs(Apply(s, a).cam, Apply(s, a).q, id, source)
  {
    match a
    case UpdateSenderAct =>
      if s.q.insertReq != [] {
        UpdatesPop(s.q.insertReq, id, source);
      } else if s.q.deleteReq != [] {
        assert UpdateIs(s.q.deleteReq[0], id, source);
      }
    case CamUpdateAct => if s.cam.updateReq != [] { UpdatesPop(s.cam.updateReq, id, source); }
    case UpdateReplyAct => if s.cam.updateRsp != [] { UpdateRepliesPop(s.cam.updateRsp, id, source); }
  }

  /** The processes behind the handler leave it and its clients alone. */
  lemma {:induction false} OthersKeep(s: System, g: Log, a: Action)
    requires Kinds(s.q) && LogOk(s, g) && !a.ReplyHandlerAct? && !a.CamLookupAct? && !a.RxQuery? && !a.TxQuery?
    ensures LogOk(Apply(s, a), LogNext(g, s, a))
  {
    OthersFrame(s, a);
    if s.h.state.UpdRsp? && (a.UpdateSenderAct? || a.CamUpdateAct? || a.UpdateReplyAct?) {
      PathKept(s, a, g.pending[0].next.value, g.pending[0].query.source);
    }
  }

  lemma {:induction false} OthersFrame(s: System, a: Action)
    requires !a.ReplyHandlerAct? && !a.CamLookupAct? && !a.RxQuery? && !a.TxQuery?
    ensures Apply(s, a).h == s.h && Apply(s, a).cam.lookupRsp == s.cam.lookupRsp
    ensures !a.UpdateSenderAct? && !a.CamUpdateAct? && !a.UpdateReplyAct? ==>
              Apply(s, a).cam == s.cam && Apply(s, a).q.insertReq == s.q.insertReq && Apply(s, a).q.insertRsp == s.q.insertRsp
  {}

  /** A new query waits behind the earlier ones of its client. */
  lemma {:induction false} QueryKeeps(s: System, g: Log, a: Action)
    requires LogOk(s, g) && (a.RxQuery? || a.TxQuery?)
    ensures LogOk(Apply(s, a), LogNext(g, s, a))
  {
    match a
    case RxQuery(t, allow) =>
      var x := Query(t, allow, FromRx);
      assert Queries(g.rx) + Current(s.h, g.pending, FromRx) + (s.h.rxReq + [x])
          == Queries(g.rx) + Current(s.h, g.pending, FromRx) + s.h.rxReq + [x];
    case TxQuery(t) =>
      var x := Query(t, true, FromTxApp);
      assert TxQueries(s.h.txReq + [t]) == TxQueries(s.h.txReq) + [x];
      assert Queries(g.tx) + Current(s.h, g.pending, FromTxApp) + (TxQueries(s.h.txReq) + [x])
          == Queries(g.tx) + Current(s.h, g.pending, FromTxApp) + TxQueries(s.h.txReq) + [x];
  }

  lemma {:induction false} LogStep(s: System, g: Log, a: Action)
    requires Inv(s) && LogOk(s, g)
    ensures LogOk(Apply(s, a), LogNext(g, s, a))
  {
    match a
    case ReplyHandlerAct => HandlerKeeps(s, g);
    case CamLookupAct => LookupKeeps(s, g);
    case RxQuery(_, _) => QueryKeeps(s, g, a);
    case TxQuery(_) => QueryKeeps(s, g, a);
    case _ => OthersKeep(s, g, a);
  }

  // ----- runs -----

  /** Power-up, the client streams empty, too. */
  predicate PowerUp(s: System) {
    && Initial(s) && s.h.rxReq == [] && s.h.txReq == [] && s.h.rxRsp == [] && s.h.txRsp == []
    && s.rev.release == [] && s.rev.revReq == [] && s.rev.releasePort == [] && s.rev.revRsp == []
  }

  const NO_LOG: Log := Log([], [], None, [], [], [])

  function LogRun(s: System, acts: seq<Action>): Log
    decreases |acts|
  {
    if acts == [] then NO_LOG else LogNext(LogRun(s, acts[..|acts|-1]), Run(s, acts[..|acts|-1]), acts[|acts|-1])
  }

  lemma {:induction false} LogStart(s: System)
    requires PowerUp(s)
    ensures LogOk(s, NO_LOG)
  {
    assert Queries([]) == [] && TxQueries([]) == [];
  }

  lemma {:induction false} LogInvRun(s: System, acts: seq<Action>)
    requires PowerUp(s)
    ensures Inv(Run(s, acts)) && LogOk(Run(s, acts), LogRun(s, acts))
    decreases |acts|
  {
    InvRun(s, acts);
    if acts == [] {
      LogStart(s);
    } else {
      LogInvRun(s, acts[..|acts|-1]);
      LogStep(Run(s, acts[..|acts|-1]), LogRun(s, acts[..|acts|-1]), acts[|acts|-1]);
    }
  }

  /** Over any run from power-up: each client gets one right answer for each of its queries, in the order it asked. */
  lemma {:induction false} EachQueryAnswered(s: System, acts: seq<Action>)
    requires PowerUp(s)
    ensures var t, g := Run(s, acts), LogRun(s, acts);
            && RightAnswers(g.rx, t.h.rxRsp, FromRx) && RightAnswers(g.tx, t.h.txRsp, FromTxApp)
            && Queries(g.rx) + Current(t.h, g.pending, FromRx) + t.h.rxReq == g.rxAsked
            && Queries(g.tx) + Current(t.h, g.pending, FromTxApp) + TxQueries(t.h.txReq) == g.txAsked
  {
    LogInvRun(s, acts);
  }

  lemma {:induction false} AnsweredKey(s: System, g: Log, id: SessionId)
    requires Inv(s) && LogOk(s, g) && s.h.state.UpdRsp? && s.q.insertRsp != [] && id == g.pending[0].next.value
    ensures KeyOf(s, id) == Some(g.pending[0].query.tuple) && KeyOf(ReplyHandler(s), id) == KeyOf(s, id)
  {
    InsertKeeps(s, g, g.pending[0], s.q.insertRsp[0]);
    assert InsertedIds(s.q.insertRsp) == [id] + InsertedIds(s.q.insertRsp[1..]);
    assert id in Sent(s.cam, s.q);
    OnePlace(s, id);
    HandlerKey(s, id);
  }

  /** Over any run: when a new session is answered, its ID stands for the tuple of the query, in both directions: it is the ID's key,
      and the memory maps the tuple to it. */
  lemma {:induction false} NewSessionIsKeyed(s: System, acts: seq<Action>)
    requires PowerUp(s)
    requires var t := Run(s, acts); t.h.state.UpdRsp? && t.q.insertRsp != [] && LogRun(s, acts).pending != []
    ensures var t, b := Run(s, acts), LogRun(s, acts).pending[0];
            var u := ReplyHandler(t);
            && Creating(b) && LogNext(LogRun(s, acts), t, ReplyHandlerAct) == Answered(LogRun(s, acts).(pending := []), b)
            && KeyOf(u, b.next.value) == Some(b.query.tuple) && Bound(FinalOf(u), b.query.tuple, b.next.value)
  {
    LogInvRun(s, acts);
    var t, g := Run(s, acts), LogRun(s, acts);
    var b := g.pending[0];
    AnsweredKey(t, g, b.next.value);
    InvStep(t, ReplyHandlerAct);
    assert Bound(FinalOf(ReplyHandler(t)), b.query.tuple, b.next.value);
  }

  // ----- the reverse direction -----

  /** The reverse table serves one request per step. A query is answered with one tuple, which is the key of a valid ID; the release of
      a valid ID gives its port back and deletes its key, and the release of any other ID does nothing. */
  ghost predicate ReverseServes(t: System, u: System, id: SessionId) {
    if t.q.revInserts != [] then
      && u.rev.revRsp == t.rev.revRsp && u.rev.releasePort == t.rev.releasePort && u.q.deleteReq == t.q.deleteReq
      && u.rev.revReq == t.rev.revReq && u.rev.release == t.rev.release
      && u.rev.valid[t.q.revInserts[0].id]
    else if t.rev.release != [] then
      && [t.rev.release[0]] + u.rev.release == t.rev.release && u.rev.revReq == t.rev.revReq && u.rev.revRsp == t.rev.revRsp
      && !u.rev.valid[t.rev.release[0]]
      && (id == t.rev.release[0] && t.rev.valid[id] ==>
            exists k :: KeyOf(t, id) == Some(k) && Bound(FinalOf(t), k, id)
                        && u.rev.releasePort == t.rev.releasePort + [k.myPort] && u.q.deleteReq == t.q.deleteReq + [Delete(k, id)])
      && (id == t.rev.release[0] && !t.rev.valid[id] ==>
            u.rev.releasePort == t.rev.releasePort && u.q.deleteReq == t.q.deleteReq)
    else if t.rev.revReq != [] then
      && [t.rev.revReq[0]] + u.rev.revReq == t.rev.revReq && u.rev.releasePort == t.rev.releasePort
      && u.q.deleteReq == t.q.deleteReq && |u.rev.revRsp| == |t.rev.revRsp| + 1 && u.rev.revRsp[..|t.rev.revRsp|] == t.rev.revRsp
      && (id == t.rev.revReq[0] && t.rev.valid[id] ==>
            KeyOf(t, id) == Some(u.rev.revRsp[|t.rev.revRsp|]) && Bound(FinalOf(t), u.rev.revRsp[|t.rev.revRsp|], id))
    else u == t
  }

  lemma {:induction false} ReverseRuns(s: System, acts: seq<Action>, id: SessionId)
    requires PowerUp(s)
    ensures ReverseServes(Run(s, acts), Apply(Run(s, acts), ReverseAct), id)
  {
    InvRun(s, acts);
    var t := Run(s, acts);
    ReverseServed(t, Apply(t, ReverseAct), id);
  }

  lemma {:induction false} ReverseServed(t: System, u: System, id: SessionId)
    requires Inv(t) && u == Apply(t, ReverseAct)
    ensures ReverseServes(t, u, id)
  {
    if t.rev.valid[id] {
      var k := t.rev.tuples[id];
      assert KeyOf(t, id) == Some(k);
      assert Bound(FinalOf(t), k, id);
    }
  }

  /** Nothing else writes to these streams. */
  lemma {:induction false} OnlyReverseAnswers(s: System, a: Action)
    requires !a.ReverseAct?
    ensures Apply(s, a).rev.revRsp == s.rev.revRsp && Apply(s, a).rev.releasePort == s.rev.releasePort
    ensures !a.UpdateSenderAct? ==> Apply(s, a).q.deleteReq == s.q.deleteReq
  {}
}
