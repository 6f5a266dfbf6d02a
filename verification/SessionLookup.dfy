/** Session-ID allocator and session index (session_lookup_controller): five processes around a
    content-addressable memory whose behaviour is the one of the repository's software stub. */
module SessionLookup {
  import opened ToeTypes

  datatype ThreeTuple = ThreeTuple(myPort: Word16, theirPort: Word16, theirIp: Seq32)
  datatype Source = FromRx | FromTxApp
  datatype Query = Query(tuple: ThreeTuple, allowCreation: bool, source: Source)
  datatype LookupRequest = LookupRequest(key: ThreeTuple, source: Source)
  datatype CamReply = CamReply(hit: bool, id: SessionId, source: Source)
  datatype Update = Insert(key: ThreeTuple, id: SessionId, source: Source) | Delete(key: ThreeTuple, id: SessionId)
  datatype UpdateReply = Inserted(id: SessionId, source: Source) | Deleted(id: SessionId)
  datatype RevInsert = RevInsert(id: SessionId, tuple: ThreeTuple)
  datatype Reply = Reply(id: SessionId, hit: bool)

  datatype HandlerState = LupReq | LupRsp | UpdRsp

  type Tuples = t: seq<ThreeTuple> | |t| == MAX_SESSIONS witness seq(MAX_SESSIONS, _ => ThreeTuple(0, 0, 0))
  type Flags = t: seq<bool> | |t| == MAX_SESSIONS witness seq(MAX_SESSIONS, _ => false)

  /** sessionIdManager: the counter and its two streams. */
  datatype Ids = Ids(counter: nat, free: seq<SessionId>, fin: seq<SessionId>)

  /** lookupReplyHandler: static state and the streams to its clients. */
  datatype Handler = Handler(
    state: HandlerState, queryCache: seq<Query>, insertTuples: seq<ThreeTuple>,
    rxReq: seq<Query>, txReq: seq<ThreeTuple>, rxRsp: seq<Reply>, txRsp: seq<Reply>)

  /** Streams from and to the memory, and the memory. */
  datatype Cam = Cam(
    table: map<ThreeTuple, SessionId>, lookupReq: seq<LookupRequest>, lookupRsp: seq<CamReply>,
    updateReq: seq<Update>, updateRsp: seq<UpdateReply>)

  /** Streams between the processes. */
  datatype Fifos = Fifos(
    insertReq: seq<Update>, deleteReq: seq<Update>, insertRsp: seq<UpdateReply>, revInserts: seq<RevInsert>)

  /** reverseLookupTableInterface: its two arrays and its client streams. */
  datatype Reverse = Reverse(
    tuples: Tuples, valid: Flags, release: seq<SessionId>, releasePort: seq<Word16>,
    revReq: seq<SessionId>, revRsp: seq<ThreeTuple>)

  datatype System = System(ids: Ids, h: Handler, cam: Cam, q: Fifos, rev: Reverse, used: Word16)

  // ----- one function per process -----

  function IdManager(i: Ids): Ids {
    if i.fin != [] then i.(fin := i.fin[1..], free := i.free + [i.fin[0]])
    else if i.counter < MAX_SESSIONS then i.(counter := i.counter + 1, free := i.free + [i.counter])
    else i
  }

  function Answer(h: Handler, source: Source, r: Reply): Handler {
    match source
    case FromRx => h.(rxRsp := h.rxRsp + [r])
    case FromTxApp => h.(txRsp := h.txRsp + [r])
  }

  function StartLookup(h: Handler): (Handler, seq<LookupRequest>) {
    if h.txReq != [] then
      (h.(txReq := h.txReq[1..], queryCache := h.queryCache + [Query(h.txReq[0], true, FromTxApp)], state := LupRsp),
       [LookupRequest(h.txReq[0], FromTxApp)])
    else if h.rxReq != [] then
      (h.(rxReq := h.rxReq[1..], queryCache := h.queryCache + [h.rxReq[0].(source := FromRx)], state := LupRsp),
       [LookupRequest(h.rxReq[0].tuple, FromRx)])
    else (h, [])
  }

  predicate Creates(r: CamReply, q: Query, free: seq<SessionId>) { !r.hit && q.allowCreation && free != [] }

  function ReplyHandler(s: System): System {
    match s.h.state
    case LupReq =>
      var (h, req) := StartLookup(s.h);
      s.(h := h, cam := s.cam.(lookupReq := s.cam.lookupReq + req))
    case LupRsp =>
      if s.cam.lookupRsp == [] || s.h.queryCache == [] then s
      else
        var r, q := s.cam.lookupRsp[0], s.h.queryCache[0];
        var c := s.cam.(lookupRsp := s.cam.lookupRsp[1..]);
        var h := s.h.(queryCache := s.h.queryCache[1..]);
        if Creates(r, q, s.ids.free) then
          s.(ids := s.ids.(free := s.ids.free[1..]), cam := c,
             q := s.q.(insertReq := s.q.insertReq + [Insert(q.tuple, s.ids.free[0], r.source)]),
             h := h.(insertTuples := h.insertTuples + [q.tuple], state := UpdRsp))
        else s.(cam := c, h := Answer(h, r.source, Reply(r.id, r.hit)).(state := LupReq))
    case UpdRsp =>
      if s.q.insertRsp == [] || s.h.insertTuples == [] || s.q.insertRsp[0].Deleted? then s
      else
        var r := s.q.insertRsp[0];
        s.(q := s.q.(insertRsp := s.q.insertRsp[1..], revInserts := s.q.revInserts + [RevInsert(r.id, s.h.insertTuples[0])]),
           h := Answer(s.h, r.source, Reply(r.id, true)).(insertTuples := s.h.insertTuples[1..], state := LupReq))
  }

  function UpdateSender(s: System): System {
    if s.q.insertReq != [] then
      s.(q := s.q.(insertReq := s.q.insertReq[1..]), used := (s.used + 1) % 0x1_0000,
         cam := s.cam.(updateReq := s.cam.updateReq + [s.q.insertReq[0]]))
    else if s.q.deleteReq != [] then
      s.(q := s.q.(deleteReq := s.q.deleteReq[1..]), used := (s.used - 1) % 0x1_0000,
         cam := s.cam.(updateReq := s.cam.updateReq + [s.q.deleteReq[0]]),
         ids := s.ids.(fin := s.ids.fin + [s.q.deleteReq[0].id]))
    else s
  }

  function UpdateReplyHandler(s: System): System {
    if s.cam.updateRsp == [] then s
    else
      s.(cam := s.cam.(updateRsp := s.cam.updateRsp[1..]),
         q := if s.cam.updateRsp[0].Inserted? then s.q.(insertRsp := s.q.insertRsp + [s.cam.updateRsp[0]]) else s.q)
  }

  function ReverseTable(r: Reverse, inserts: seq<RevInsert>, deletes: seq<Update>): (Reverse, seq<RevInsert>, seq<Update>) {
    if inserts != [] then
      var i := inserts[0];
      (r.(tuples := r.tuples[i.id := i.tuple], valid := r.valid[i.id := true]), inserts[1..], deletes)
    else if r.release != [] then
      var id := r.release[0];
      var u := r.(release := r.release[1..], valid := r.valid[id := false]);
      if r.valid[id] then
        (u.(releasePort := u.releasePort + [r.tuples[id].myPort]), inserts, deletes + [Delete(r.tuples[id], id)])
      else (u, inserts, deletes)
    else if r.revReq != [] then
      (r.(revReq := r.revReq[1..], revRsp := r.revRsp + [r.tuples[r.revReq[0]]]), inserts, deletes)
    else (r, inserts, deletes)
  }

  // ----- the memory stub -----

  function CamLookup(c: Cam): Cam {
    if c.lookupReq == [] then c
    else
      var l := c.lookupReq[0];
      c.(lookupReq := c.lookupReq[1..],
         lookupRsp := c.lookupRsp + [if l.key in c.table then CamReply(true, c.table[l.key], l.source)
                                     else CamReply(false, 0, l.source)])
  }

  function ApplyUpdate(t: map<ThreeTuple, SessionId>, u: Update): map<ThreeTuple, SessionId> {
    match u
    case Insert(key, id, _) => t[key := id]
    case Delete(key, _) => t - {key}
  }

  function CamUpdate(c: Cam): Cam {
    if c.updateReq == [] then c
    else
      var u := c.updateReq[0];
      c.(updateReq := c.updateReq[1..], table := ApplyUpdate(c.table, u),
         updateRsp := c.updateRsp + [if u.Insert? then Inserted(u.id, u.source) else Deleted(u.id)])
  }

  // ----- runs -----

  datatype Action =
    | IdManagerAct | ReplyHandlerAct | UpdateSenderAct | UpdateReplyAct | ReverseAct | CamLookupAct | CamUpdateAct
    | RxQuery(tuple: ThreeTuple, allowCreation: bool)
    | TxQuery(tuple: ThreeTuple)
    | Release(id: SessionId)
    | RevQuery(id: SessionId)

  function Apply(s: System, a: Action): System {
    match a
    case IdManagerAct => s.(ids := IdManager(s.ids))
    case ReplyHandlerAct => ReplyHandler(s)
    case UpdateSenderAct => UpdateSender(s)
    case UpdateReplyAct => UpdateReplyHandler(s)
    case ReverseAct =>
      var (r, i, d) := ReverseTable(s.rev, s.q.revInserts, s.q.deleteReq);
      s.(rev := r, q := s.q.(revInserts := i, deleteReq := d))
    case CamLookupAct => s.(cam := CamLookup(s.cam))
    case CamUpdateAct => s.(cam := CamUpdate(s.cam))
    case RxQuery(t, allow) => s.(h := s.h.(rxReq := s.h.rxReq + [Query(t, allow, FromRx)]))
    case TxQuery(t) => s.(h := s.h.(txReq := s.h.txReq + [t]))
    case Release(id) => s.(rev := s.rev.(release := s.rev.release + [id]))
    case RevQuery(id) => s.(rev := s.rev.(revReq := s.rev.revReq + [id]))
  }

  function Run(s: System, acts: seq<Action>): System
    decreases |acts|
  {
    if acts == [] then s else Apply(Run(s, acts[..|acts|-1]), acts[|acts|-1])
  }

  predicate Initial(s: System) {
    && s.ids == Ids(0, [], []) && s.used == 0
    && s.h.state == LupReq && s.h.queryCache == [] && s.h.insertTuples == []
    && s.cam == Cam(map[], [], [], [], [])
    && s.q == Fifos([], [], [], [])
    && (forall i: SessionId :: !s.rev.valid[i])
  }

  // ----- where a session ID is -----

  function UpdateIds(q: seq<Update>): seq<SessionId> { seq(|q|, i requires 0 <= i < |q| => q[i].id) }
  function RevIds(q: seq<RevInsert>): seq<SessionId> { seq(|q|, i requires 0 <= i < |q| => q[i].id) }

  /** The inserts among the queued updates, and among the replies. */
  function Inserts(q: seq<Update>): seq<SessionId> {
    if q == [] then [] else if q[0].Insert? then [q[0].id] + Inserts(q[1..]) else Inserts(q[1..])
  }

  function InsertedIds(q: seq<UpdateReply>): seq<SessionId> {
    if q == [] then [] else if q[0].Inserted? then [q[0].id] + InsertedIds(q[1..]) else InsertedIds(q[1..])
  }

  /** IDs whose insert has been sent to the memory and not yet been answered to the client. */
  function Sent(c: Cam, q: Fifos): seq<SessionId> {
    Inserts(c.updateReq) + InsertedIds(c.updateRsp) + InsertedIds(q.insertRsp)
  }

  function Occ(q: seq<SessionId>, id: SessionId): nat {
    if q == [] then 0 else (if q[0] == id then 1 else 0) + Occ(q[1..], id)
  }

  /** The number of places an ID is in: free list, finish FIFO, insert path, reverse insert FIFO, valid in the
      reverse table, delete FIFO. */
  function Places(s: System, id: SessionId): nat {
    Occ(s.ids.free, id) + Occ(s.ids.fin, id) + Occ(UpdateIds(s.q.insertReq), id) + Occ(Sent(s.cam, s.q), id)
    + Occ(RevIds(s.q.revInserts), id) + (if s.rev.valid[id] then 1 else 0) + Occ(UpdateIds(s.q.deleteReq), id)
  }

  predicate Partition(s: System) {
    && s.ids.counter <= MAX_SESSIONS
    && forall id: SessionId :: Places(s, id) == if id < s.ids.counter then 1 else 0
  }

  // ----- the key an ID stands for -----

  function RevKey(q: seq<RevInsert>, id: SessionId): Option<ThreeTuple> {
    if q == [] then None else if q[0].id == id then Some(q[0].tuple) else RevKey(q[1..], id)
  }

  function DelKey(q: seq<Update>, id: SessionId): Option<ThreeTuple> {
    if q == [] then None else if q[0].id == id then Some(q[0].key) else DelKey(q[1..], id)
  }

  /** The key of an ID that has reached the memory and has not been taken out of it. */
  function LiveKey(rev: Reverse, q: Fifos, c: Cam, tuples: seq<ThreeTuple>, id: SessionId): Option<ThreeTuple> {
    if rev.valid[id] then Some(rev.tuples[id])
    else if RevKey(q.revInserts, id).Some? then RevKey(q.revInserts, id)
    else if DelKey(q.deleteReq, id).Some? then DelKey(q.deleteReq, id)
    else if id in Sent(c, q) && tuples != [] then Some(tuples[0])
    else None
  }

  /** The memory once every queued update is applied. */
  function Final(t: map<ThreeTuple, SessionId>, q: seq<Update>): map<ThreeTuple, SessionId>
    decreases |q|
  {
    if q == [] then t else ApplyUpdate(Final(t, q[..|q|-1]), q[|q|-1])
  }

  function FinalOf(s: System): map<ThreeTuple, SessionId> { Final(s.cam.table, s.cam.updateReq) }

  function KeyOf(s: System, id: SessionId): Option<ThreeTuple> { LiveKey(s.rev, s.q, s.cam, s.h.insertTuples, id) }

  predicate Bound(m: map<ThreeTuple, SessionId>, k: ThreeTuple, id: SessionId) { k in m && m[k] == id }

  ghost predicate Agreement(s: System) {
    forall k: ThreeTuple, id: SessionId :: Bound(FinalOf(s), k, id) <==> KeyOf(s, id) == Some(k)
  }

  // ----- the phase of the reply handler -----

  predicate Kinds(q: Fifos) {
    && (forall i :: 0 <= i < |q.insertReq| ==> q.insertReq[i].Insert?)
    && (forall i :: 0 <= i < |q.deleteReq| ==> q.deleteReq[i].Delete?)
    && (forall i :: 0 <= i < |q.insertRsp| ==> q.insertRsp[i].Inserted?)
  }

  function PathLength(c: Cam, q: Fifos): nat { |q.insertReq| + |Sent(c, q)| }

  /** The one lookup in flight: not yet looked up, or answered, and a miss still holds. */
  predicate LookupPending(q: Query, c: Cam) {
    || (c.lookupRsp == [] && |c.lookupReq| == 1 && c.lookupReq[0] == LookupRequest(q.tuple, q.source))
    || (c.lookupReq == [] && |c.lookupRsp| == 1 && c.lookupRsp[0].source == q.source
        && (!c.lookupRsp[0].hit ==> q.tuple !in c.table))
  }

  /** The one insert in flight: its key is not in the memory before the memory applies it. */
  predicate InsertPending(key: ThreeTuple, c: Cam, q: Fifos) {
    && PathLength(c, q) == 1
    && (q.insertReq != [] ==> q.insertReq[0].key == key && key !in c.table)
    && (forall i :: 0 <= i < |c.updateReq| && c.updateReq[i].Insert? ==> c.updateReq[i].key == key && key !in c.table)
  }

  predicate Phase(h: Handler, c: Cam, q: Fifos) {
    match h.state
    case LupReq => h.queryCache == [] && h.insertTuples == [] && c.lookupReq == [] && c.lookupRsp == [] && PathLength(c, q) == 0
    case LupRsp => |h.queryCache| == 1 && h.insertTuples == [] && LookupPending(h.queryCache[0], c) && PathLength(c, q) == 0
    case UpdRsp => h.queryCache == [] && |h.insertTuples| == 1 && c.lookupReq == [] && c.lookupRsp == []
                   && InsertPending(h.insertTuples[0], c, q)
  }

  ghost predicate Inv(s: System) {
    Kinds(s.q) && Phase(s.h, s.cam, s.q) && Partition(s) && Agreement(s) && s.used == |FinalOf(s)|
  }

  // ----- queues -----

  lemma {:induction false} OccCat(a: seq<SessionId>, b: seq<SessionId>, id: SessionId)
    ensures Occ(a + b, id) == Occ(a, id) + Occ(b, id)
  {
    if a == [] {
      assert a + b == b;
    } else {
      OccCat(a[1..], b, id);
      assert (a + b)[1..] == a[1..] + b;
    }
  }

  lemma {:induction false} OccPush(q: seq<SessionId>, x: SessionId, id: SessionId)
    ensures Occ(q + [x], id) == Occ(q, id) + (if x == id then 1 else 0)
  {
    OccCat(q, [x], id);
  }

  lemma {:induction false} OccIn(q: seq<SessionId>, id: SessionId)
    ensures Occ(q, id) > 0 <==> id in q
  {
    if q != [] {
      OccIn(q[1..], id);
      assert q == [q[0]] + q[1..];
    }
  }

  lemma {:induction false} InsertsPush(q: seq<Update>, u: Update)
    ensures Inserts(q + [u]) == if u.Insert? then Inserts(q) + [u.id] else Inserts(q)
  {
    if q != [] {
      InsertsPush(q[1..], u);
      assert (q + [u])[1..] == q[1..] + [u];
    }
  }

  lemma {:induction false} InsertedPush(q: seq<UpdateReply>, r: UpdateReply)
    ensures InsertedIds(q + [r]) == if r.Inserted? then InsertedIds(q) + [r.id] else InsertedIds(q)
  {
    if q != [] {
      InsertedPush(q[1..], r);
      assert (q + [r])[1..] == q[1..] + [r];
    }
  }

  lemma {:induction false} NoInserts(q: seq<Update>)
    ensures Inserts(q) == [] <==> forall i :: 0 <= i < |q| ==> q[i].Delete?
  {
    if q != [] {
      NoInserts(q[1..]);
      if forall i :: 0 <= i < |q[1..]| ==> q[1..][i].Delete? {
        assert forall i :: 1 <= i < |q| ==> q[i] == q[1..][i-1];
      } else {
        var i :| 0 <= i < |q[1..]| && !q[1..][i].Delete?;
        assert q[i+1] == q[1..][i];
      }
    }
  }

  lemma {:induction false} RevKeyPush(q: seq<RevInsert>, r: RevInsert, id: SessionId)
    ensures RevKey(q + [r], id) == if RevKey(q, id).Some? then RevKey(q, id) else if r.id == id then Some(r.tuple) else None
  {
    if q != [] {
      RevKeyPush(q[1..], r, id);
      assert (q + [r])[1..] == q[1..] + [r];
    }
  }

  lemma {:induction false} DelKeyPush(q: seq<Update>, u: Update, id: SessionId)
    ensures DelKey(q + [u], id) == if DelKey(q, id).Some? then DelKey(q, id) else if u.id == id then Some(u.key) else None
  {
    if q != [] {
      DelKeyPush(q[1..], u, id);
      assert (q + [u])[1..] == q[1..] + [u];
    }
  }

  lemma {:induction false} RevKeyOcc(q: seq<RevInsert>, id: SessionId)
    ensures RevKey(q, id).Some? <==> Occ(RevIds(q), id) > 0
  {
    if q != [] {
      RevKeyOcc(q[1..], id);
      assert RevIds(q)[1..] == RevIds(q[1..]);
    }
  }

  lemma {:induction false} DelKeyOcc(q: seq<Update>, id: SessionId)
    ensures DelKey(q, id).Some? <==> Occ(UpdateIds(q), id) > 0
  {
    if q != [] {
      DelKeyOcc(q[1..], id);
      assert UpdateIds(q)[1..] == UpdateIds(q[1..]);
    }
  }

  lemma {:induction false} UpdateIdsPop(q: seq<Update>, id: SessionId)
    requires q != []
    ensures Occ(UpdateIds(q), id) == Occ(UpdateIds(q[1..]), id) + (if q[0].id == id then 1 else 0)
  {
    assert UpdateIds(q)[1..] == UpdateIds(q[1..]);
  }

  lemma {:induction false} UpdateIdsPush(q: seq<Update>, u: Update, id: SessionId)
    ensures Occ(UpdateIds(q + [u]), id) == Occ(UpdateIds(q), id) + (if u.id == id then 1 else 0)
  {
    OccPush(UpdateIds(q), u.id, id);
    assert UpdateIds(q + [u]) == UpdateIds(q) + [u.id];
  }

  lemma {:induction false} RevIdsPop(q: seq<RevInsert>, id: SessionId)
    requires q != []
    ensures Occ(RevIds(q), id) == Occ(RevIds(q[1..]), id) + (if q[0].id == id then 1 else 0)
  {
    assert RevIds(q)[1..] == RevIds(q[1..]);
  }

  lemma {:induction false} RevIdsPush(q: seq<RevInsert>, r: RevInsert, id: SessionId)
    ensures Occ(RevIds(q + [r]), id) == Occ(RevIds(q), id) + (if r.id == id then 1 else 0)
  {
    OccPush(RevIds(q), r.id, id);
    assert RevIds(q + [r]) == RevIds(q) + [r.id];
  }

  // ----- the partition -----

  /** Sent IDs by queue. */
  lemma {:induction false} SentOcc(c: Cam, q: Fifos, id: SessionId)
    ensures Occ(Sent(c, q), id)
            == Occ(Inserts(c.updateReq), id) + Occ(InsertedIds(c.updateRsp), id) + Occ(InsertedIds(q.insertRsp), id)
  {
    OccCat(Inserts(c.updateReq) + InsertedIds(c.updateRsp), InsertedIds(q.insertRsp), id);
    OccCat(Inserts(c.updateReq), InsertedIds(c.updateRsp), id);
  }

  lemma {:induction false} SentPush(c: Cam, q: Fifos, q': Fifos, u: Update, id: SessionId)
    requires q'.insertRsp == q.insertRsp
    ensures var c' := c.(updateReq := c.updateReq + [u]);
            && Occ(Sent(c', q'), id) == Occ(Sent(c, q), id) + (if u.Insert? && u.id == id then 1 else 0)
            && |Sent(c', q')| == |Sent(c, q)| + (if u.Insert? then 1 else 0)
  {
    var c' := c.(updateReq := c.updateReq + [u]);
    InsertsPush(c.updateReq, u);
    SentOcc(c, q, id);
    SentOcc(c', q', id);
    if u.Insert? { OccPush(Inserts(c.updateReq), u.id, id); }
  }

  lemma {:induction false} SentCamUpdate(c: Cam, q: Fifos, id: SessionId)
    ensures Occ(Sent(CamUpdate(c), q), id) == Occ(Sent(c, q), id) && |Sent(CamUpdate(c), q)| == |Sent(c, q)|
  {
    if c.updateReq != [] {
      var u := c.updateReq[0];
      var r := if u.Insert? then Inserted(u.id, u.source) else Deleted(u.id);
      InsertedPush(c.updateRsp, r);
      SentOcc(c, q, id);
      SentOcc(CamUpdate(c), q, id);
      if u.Insert? {
        assert Inserts(c.updateReq) == [u.id] + Inserts(c.updateReq[1..]);
        OccCat([u.id], Inserts(c.updateReq[1..]), id);
        OccPush(InsertedIds(c.updateRsp), u.id, id);
      }
    }
  }

  lemma {:induction false} SentReply(c: Cam, q: Fifos, id: SessionId)
    requires c.updateRsp != []
    ensures var r := c.updateRsp[0];
            var q' := if r.Inserted? then q.(insertRsp := q.insertRsp + [r]) else q;
            var c' := c.(updateRsp := c.updateRsp[1..]);
            && Occ(Sent(c', q'), id) == Occ(Sent(c, q), id) && |Sent(c', q')| == |Sent(c, q)|
  {
    var r := c.updateRsp[0];
    var q' := if r.Inserted? then q.(insertRsp := q.insertRsp + [r]) else q;
    var c' := c.(updateRsp := c.updateRsp[1..]);
    SentOcc(c, q, id);
    SentOcc(c', q', id);
    InsertedPush(q.insertRsp, r);
    if r.Inserted? {
      assert InsertedIds(c.updateRsp) == [r.id] + InsertedIds(c.updateRsp[1..]);
      OccCat([r.id], InsertedIds(c.updateRsp[1..]), id);
      OccPush(InsertedIds(q.insertRsp), r.id, id);
    }
  }

  lemma {:induction false} SentAnswer(c: Cam, q: Fifos, id: SessionId)
    requires q.insertRsp != [] && q.insertRsp[0].Inserted?
    ensures var q' := q.(insertRsp := q.insertRsp[1..]);
            && Occ(Sent(c, q), id) == Occ(Sent(c, q'), id) + (if q.insertRsp[0].id == id then 1 else 0)
            && |Sent(c, q)| == |Sent(c, q')| + 1
  {
    var q' := q.(insertRsp := q.insertRsp[1..]);
    SentOcc(c, q, id);
    SentOcc(c, q', id);
    assert InsertedIds(q.insertRsp) == [q.insertRsp[0].id] + InsertedIds(q.insertRsp[1..]);
    OccCat([q.insertRsp[0].id], InsertedIds(q.insertRsp[1..]), id);
  }

  /** Sent depends on three queues only. */
  lemma {:induction false} SentFrame(c: Cam, q: Fifos, c': Cam, q': Fifos)
    requires c'.updateReq == c.updateReq && c'.updateRsp == c.updateRsp && q'.insertRsp == q.insertRsp
    ensures Sent(c', q') == Sent(c, q)
  {}

  lemma {:induction false} HandlerPlaces(s: System, id: SessionId)
    requires Kinds(s.q)
    ensures Places(ReplyHandler(s), id) == Places(s, id)
  {
    var t := ReplyHandler(s);
    match s.h.state
    case LupReq => SentFrame(s.cam, s.q, t.cam, t.q);
    case LupRsp =>
      SentFrame(s.cam, s.q, t.cam, t.q);
      if s.cam.lookupRsp != [] && s.h.queryCache != [] && Creates(s.cam.lookupRsp[0], s.h.queryCache[0], s.ids.free) {
        UpdateIdsPush(s.q.insertReq, Insert(s.h.queryCache[0].tuple, s.ids.free[0], s.cam.lookupRsp[0].source), id);
      }
    case UpdRsp =>
      if s.q.insertRsp != [] && s.h.insertTuples != [] {
        var r := s.q.insertRsp[0];
        SentAnswer(s.cam, s.q, id);
        SentFrame(s.cam, s.q.(insertRsp := s.q.insertRsp[1..]), t.cam, t.q);
        RevIdsPush(s.q.revInserts, RevInsert(r.id, s.h.insertTuples[0]), id);
      }
  }

  lemma {:induction false} SenderPlaces(s: System, id: SessionId)
    requires Kinds(s.q)
    ensures Places(UpdateSender(s), id) == Places(s, id)
  {
    var t := UpdateSender(s);
    if s.q.insertReq != [] {
      UpdateIdsPop(s.q.insertReq, id);
      SentPush(s.cam, s.q, t.q, s.q.insertReq[0], id);
    } else if s.q.deleteReq != [] {
      UpdateIdsPop(s.q.deleteReq, id);
      SentPush(s.cam, s.q, t.q, s.q.deleteReq[0], id);
      OccPush(s.ids.fin, s.q.deleteReq[0].id, id);
    }
  }

  lemma {:induction false} ReversePlaces(s: System, id: SessionId)
    requires Partition(s)
    ensures Places(Apply(s, ReverseAct), id) == Places(s, id)
  {
    var t := Apply(s, ReverseAct);
    SentFrame(s.cam, s.q, t.cam, t.q);
    if s.q.revInserts != [] {
      var i := s.q.revInserts[0];
      RevIdsPop(s.q.revInserts, id);
      RevIdsPop(s.q.revInserts, i.id);
      assert Places(s, i.id) <= 1;
    } else if s.rev.release != [] {
      var r := s.rev.release[0];
      if s.rev.valid[r] { UpdateIdsPush(s.q.deleteReq, Delete(s.rev.tuples[r], r), id); }
    }
  }

  lemma {:induction false} IdManagerPlaces(s: System, id: SessionId)
    requires s.ids.counter <= MAX_SESSIONS
    ensures var t := Apply(s, IdManagerAct);
            Places(t, id) == Places(s, id) + (if s.ids.counter <= id < t.ids.counter then 1 else 0)
  {
    if s.ids.fin != [] {
      OccPush(s.ids.free, s.ids.fin[0], id);
    } else if s.ids.counter < MAX_SESSIONS {
      OccPush(s.ids.free, s.ids.counter, id);
    }
  }

  lemma {:induction false} UpdateReplyPlaces(s: System, id: SessionId)
    ensures Places(Apply(s, UpdateReplyAct), id) == Places(s, id)
  {
    var t := Apply(s, UpdateReplyAct);
    UpdateReplySent(s, t, id);
    SamePlaces(s, t, id);
  }

  lemma {:induction false} UpdateReplySent(s: System, t: System, id: SessionId)
    requires t == Apply(s, UpdateReplyAct)
    ensures t == s.(cam := t.cam, q := s.q.(insertRsp := t.q.insertRsp)) && Occ(Sent(t.cam, t.q), id) == Occ(Sent(s.cam, s.q), id)
  {
    if s.cam.updateRsp != [] { SentReply(s.cam, s.q, id); }
  }

  lemma {:induction false} SamePlaces(s: System, t: System, id: SessionId)
    requires t == s.(cam := t.cam, q := s.q.(insertRsp := t.q.insertRsp)) && Occ(Sent(t.cam, t.q), id) == Occ(Sent(s.cam, s.q), id)
    ensures Places(t, id) == Places(s, id)
  {}

  lemma {:induction false} CamUpdatePlaces(s: System, id: SessionId)
    ensures Places(Apply(s, CamUpdateAct), id) == Places(s, id)
  {
    SentCamUpdate(s.cam, s.q, id);
  }

  predicate External(a: Action) { a.CamLookupAct? || a.RxQuery? || a.TxQuery? || a.Release? || a.RevQuery? }

  /** What a lookup in the memory or a client's request leaves alone. */
  lemma {:induction false} ExternalFrame(s: System, a: Action)
    requires External(a)
    ensures var t := Apply(s, a);
            && t.ids == s.ids && t.q == s.q && t.rev.valid == s.rev.valid && t.rev.tuples == s.rev.tuples && t.used == s.used
            && Sent(t.cam, t.q) == Sent(s.cam, s.q) && t.cam.table == s.cam.table && t.cam.updateReq == s.cam.updateReq
            && t.h.insertTuples == s.h.insertTuples
  {
    SentFrame(s.cam, s.q, Apply(s, a).cam, s.q);
  }

  lemma {:induction false} ExternalPlaces(s: System, a: Action, id: SessionId)
    requires External(a)
    ensures Places(Apply(s, a), id) == Places(s, id)
  {
    ExternalFrame(s, a);
  }

  lemma {:induction false} CounterStep(s: System, a: Action)
    ensures !a.IdManagerAct? ==> Apply(s, a).ids.counter == s.ids.counter
    ensures s.ids.counter <= MAX_SESSIONS ==> s.ids.counter <= Apply(s, a).ids.counter <= MAX_SESSIONS
  {}

  lemma {:induction false} PlacesStep(s: System, a: Action, id: SessionId)
    requires Kinds(s.q) && Partition(s)
    ensures Places(Apply(s, a), id)
            == Places(s, id) + (if s.ids.counter <= id < Apply(s, a).ids.counter then 1 else 0)
  {
    CounterStep(s, a);
    if External(a) {
      ExternalPlaces(s, a, id);
    } else {
      match a
      case IdManagerAct => IdManagerPlaces(s, id);
      case ReplyHandlerAct => HandlerPlaces(s, id);
      case UpdateSenderAct => SenderPlaces(s, id);
      case UpdateReplyAct => UpdateReplyPlaces(s, id);
      case ReverseAct => ReversePlaces(s, id);
      case CamUpdateAct => CamUpdatePlaces(s, id);
    }
  }

  lemma {:induction false} PartitionStep(s: System, a: Action)
    requires Kinds(s.q) && Partition(s)
    ensures Partition(Apply(s, a))
  {
    CounterStep(s, a);
    forall id: SessionId ensures Places(Apply(s, a), id) == if id < Apply(s, a).ids.counter then 1 else 0 {
      PlacesStep(s, a, id);
    }
  }

  // ----- the handler's phase -----

  lemma {:induction false} HandlerPhase(s: System)
    requires Kinds(s.q) && Phase(s.h, s.cam, s.q)
    ensures var t := ReplyHandler(s); Kinds(t.q) && Phase(t.h, t.cam, t.q)
  {
    var t := ReplyHandler(s);
    match s.h.state
    case LupReq => SentFrame(s.cam, s.q, t.cam, t.q);
    case LupRsp =>
      SentFrame(s.cam, s.q, t.cam, t.q);
      if s.cam.lookupRsp != [] {
        NoInserts(s.cam.updateReq);
      }
    case UpdRsp =>
      if s.q.insertRsp != [] {
        SentAnswer(s.cam, s.q, 0);
        SentFrame(s.cam, s.q.(insertRsp := s.q.insertRsp[1..]), t.cam, t.q);
      }
  }

  lemma {:induction false} SenderPhase(s: System)
    requires Kinds(s.q) && Phase(s.h, s.cam, s.q)
    ensures var t := UpdateSender(s); Kinds(t.q) && Phase(t.h, t.cam, t.q)
  {
    var t := UpdateSender(s);
    if s.q.insertReq != [] {
      SentPush(s.cam, s.q, t.q, s.q.insertReq[0], 0);
    } else if s.q.deleteReq != [] {
      SentPush(s.cam, s.q, t.q, s.q.deleteReq[0], 0);
    }
  }

  lemma {:induction false} CamUpdatePhase(s: System)
    requires Kinds(s.q) && Phase(s.h, s.cam, s.q)
    ensures Phase(s.h, CamUpdate(s.cam), s.q)
  {
    SentCamUpdate(s.cam, s.q, 0);
    if s.cam.updateReq != [] {
      var u := s.cam.updateReq[0];
      if u.Insert? {
        assert Inserts(s.cam.updateReq) == [u.id] + Inserts(s.cam.updateReq[1..]);
        assert |Sent(s.cam, s.q)| == 1 && s.q.insertReq == [];
        assert Inserts(s.cam.updateReq[1..]) == [];
        NoInserts(s.cam.updateReq[1..]);
      }
    }
  }

  lemma {:induction false} UpdateReplyPhase(s: System)
    requires Kinds(s.q) && Phase(s.h, s.cam, s.q)
    ensures var t := Apply(s, UpdateReplyAct); Kinds(t.q) && Phase(t.h, t.cam, t.q)
  {
    if s.cam.updateRsp != [] { SentReply(s.cam, s.q, 0); }
  }

  lemma {:induction false} ReversePhase(s: System)
    requires Kinds(s.q) && Phase(s.h, s.cam, s.q)
    ensures var t := Apply(s, ReverseAct); Kinds(t.q) && Phase(t.h, t.cam, t.q)
  {
    var t := Apply(s, ReverseAct);
    ReverseFrame(s, t);
    SentFrame(s.cam, s.q, s.cam, t.q);
  }

  lemma {:induction false} ReverseFrame(s: System, t: System)
    requires Kinds(s.q) && t == Apply(s, ReverseAct)
    ensures Kinds(t.q) && t.h == s.h && t.cam == s.cam && t.q.insertReq == s.q.insertReq && t.q.insertRsp == s.q.insertRsp
  {}

  lemma {:induction false} ExternalPhase(s: System, a: Action)
    requires External(a) && Kinds(s.q) && Phase(s.h, s.cam, s.q)
    ensures var t := Apply(s, a); Kinds(t.q) && Phase(t.h, t.cam, t.q)
  {
    ExternalFrame(s, a);
  }

  lemma {:induction false} PhaseStep(s: System, a: Action)
    requires Kinds(s.q) && Phase(s.h, s.cam, s.q)
    ensures var t := Apply(s, a); Kinds(t.q) && Phase(t.h, t.cam, t.q)
  {
    if External(a) {
      ExternalPhase(s, a);
    } else {
      match a
      case IdManagerAct =>
      case ReplyHandlerAct => HandlerPhase(s);
      case UpdateSenderAct => SenderPhase(s);
      case UpdateReplyAct => UpdateReplyPhase(s);
      case ReverseAct => ReversePhase(s);
      case CamUpdateAct => CamUpdatePhase(s);
    }
  }

  // ----- the memory and the reverse table agree -----

  lemma {:induction false} FinalPop(t: map<ThreeTuple, SessionId>, q: seq<Update>)
    requires q != []
    ensures Final(ApplyUpdate(t, q[0]), q[1..]) == Final(t, q)
    decreases |q|
  {
    if |q| > 1 {
      var p := q[..|q|-1];
      FinalPop(t, p);
      assert p[1..] == q[1..][..|q|-2];
    }
  }

  lemma {:induction false} FinalPush(t: map<ThreeTuple, SessionId>, q: seq<Update>, u: Update)
    ensures Final(t, q + [u]) == ApplyUpdate(Final(t, q), u)
  {
    assert (q + [u])[..|q|] == q;
  }

  lemma {:induction false} FinalOfDeletes(t: map<ThreeTuple, SessionId>, q: seq<Update>, k: ThreeTuple)
    requires forall i :: 0 <= i < |q| ==> q[i].Delete?
    requires k in Final(t, q)
    ensures k in t
    decreases |q|
  {
    if q != [] { FinalOfDeletes(t, q[..|q|-1], k); }
  }

  /** What Partition says of an ID that is in one place on the way to, or in, the memory. */
  lemma {:induction false} OnePlace(s: System, id: SessionId)
    requires Partition(s)
    ensures id in Sent(s.cam, s.q) ==> !s.rev.valid[id] && RevKey(s.q.revInserts, id).None? && DelKey(s.q.deleteReq, id).None?
    ensures DelKey(s.q.deleteReq, id).Some? ==>
              !s.rev.valid[id] && RevKey(s.q.revInserts, id).None? && id !in Sent(s.cam, s.q)
    ensures RevKey(s.q.revInserts, id).Some? ==> !s.rev.valid[id] && DelKey(s.q.deleteReq, id).None? && id !in Sent(s.cam, s.q)
    ensures s.rev.valid[id] ==>
              RevKey(s.q.revInserts, id).None? && DelKey(s.q.deleteReq, id).None? && id !in Sent(s.cam, s.q)
    ensures id in UpdateIds(s.q.insertReq) ==>
              !s.rev.valid[id] && RevKey(s.q.revInserts, id).None? && DelKey(s.q.deleteReq, id).None? && id !in Sent(s.cam, s.q)
    ensures id in s.ids.free ==>
              !s.rev.valid[id] && RevKey(s.q.revInserts, id).None? && DelKey(s.q.deleteReq, id).None? && id !in Sent(s.cam, s.q)
  {
    assert Places(s, id) <= 1;
    OccIn(Sent(s.cam, s.q), id);
    OccIn(UpdateIds(s.q.insertReq), id);
    OccIn(s.ids.free, id);
    RevKeyOcc(s.q.revInserts, id);
    DelKeyOcc(s.q.deleteReq, id);
  }

  lemma {:induction false} HandlerKey(s: System, id: SessionId)
    requires Kinds(s.q) && Phase(s.h, s.cam, s.q) && Partition(s)
    ensures KeyOf(ReplyHandler(s), id) == KeyOf(s, id)
  {
    var t := ReplyHandler(s);
    match s.h.state
    case LupReq =>
    case LupRsp => SentFrame(s.cam, s.q, t.cam, t.q);
    case UpdRsp =>
      if s.q.insertRsp != [] {
        var r := s.q.insertRsp[0];
        RevKeyPush(s.q.revInserts, RevInsert(r.id, s.h.insertTuples[0]), id);
        assert InsertedIds(s.q.insertRsp) == [r.id] + InsertedIds(s.q.insertRsp[1..]);
        assert Sent(s.cam, s.q) == [r.id];
        OnePlace(s, r.id);
      }
  }

  lemma {:induction false} ReplyKey(s: System, id: SessionId)
    ensures KeyOf(UpdateReplyHandler(s), id) == KeyOf(s, id)
  {
    if s.cam.updateRsp != [] {
      var t := UpdateReplyHandler(s);
      SentReply(s.cam, s.q, id);
      OccIn(Sent(s.cam, s.q), id);
      OccIn(Sent(t.cam, t.q), id);
    }
  }

  lemma {:induction false} CamUpdateKey(s: System, id: SessionId)
    ensures LiveKey(s.rev, s.q, CamUpdate(s.cam), s.h.insertTuples, id) == KeyOf(s, id)
  {
    SentCamUpdate(s.cam, s.q, id);
    OccIn(Sent(s.cam, s.q), id);
    OccIn(Sent(CamUpdate(s.cam), s.q), id);
  }

  lemma {:induction false} ReverseKey(s: System, id: SessionId)
    requires Partition(s)
    ensures KeyOf(Apply(s, ReverseAct), id) == KeyOf(s, id)
  {
    var t := Apply(s, ReverseAct);
    SentFrame(s.cam, s.q, t.cam, t.q);
    OnePlace(s, id);
    if s.q.revInserts != [] {
    } else if s.rev.release != [] {
      var r := s.rev.release[0];
      if s.rev.valid[r] { DelKeyPush(s.q.deleteReq, Delete(s.rev.tuples[r], r), id); }
    }
  }

  lemma {:induction false} InsertKey(s: System, id: SessionId)
    requires Kinds(s.q) && Phase(s.h, s.cam, s.q) && Partition(s) && s.q.insertReq != []
    ensures KeyOf(UpdateSender(s), id) == if id == s.q.insertReq[0].id then Some(s.q.insertReq[0].key) else KeyOf(s, id)
    ensures id == s.q.insertReq[0].id ==> KeyOf(s, id).None?
  {
    var u, t := s.q.insertReq[0], UpdateSender(s);
    assert Sent(s.cam, s.q) == [];
    InsertsPush(s.cam.updateReq, u);
    assert Sent(t.cam, t.q) == [u.id];
    assert UpdateIds(s.q.insertReq)[0] == u.id;
    OnePlace(s, u.id);
  }

  lemma {:induction false} DeleteKey(s: System, id: SessionId)
    requires Kinds(s.q) && Partition(s) && s.q.insertReq == [] && s.q.deleteReq != []
    ensures KeyOf(UpdateSender(s), id) == if id == s.q.deleteReq[0].id then None else KeyOf(s, id)
    ensures id == s.q.deleteReq[0].id ==> KeyOf(s, id) == Some(s.q.deleteReq[0].key)
  {
    var u, t := s.q.deleteReq[0], UpdateSender(s);
    InsertsPush(s.cam.updateReq, u);
    assert Sent(t.cam, t.q) == Sent(s.cam, s.q);
    OnePlace(s, u.id);
    assert Places(s, u.id) <= 1;
    UpdateIdsPop(s.q.deleteReq, u.id);
    DelKeyOcc(s.q.deleteReq[1..], u.id);
  }

  /** A key about to be inserted is not in the memory, even after every queued update. */
  lemma {:induction false} InsertIsFresh(s: System)
    requires Kinds(s.q) && Phase(s.h, s.cam, s.q) && s.q.insertReq != []
    ensures s.q.insertReq[0].key !in FinalOf(s)
  {
    assert Inserts(s.cam.updateReq) == [];
    NoInserts(s.cam.updateReq);
    if s.q.insertReq[0].key in FinalOf(s) {
      FinalOfDeletes(s.cam.table, s.cam.updateReq, s.q.insertReq[0].key);
    }
  }

  lemma {:induction false} SenderInserts(s: System, t: System, u: Update)
    requires s.q.insertReq != [] && u == s.q.insertReq[0] && u.Insert? && t == UpdateSender(s)
    ensures FinalOf(t) == FinalOf(s)[u.key := u.id] && t.used == (s.used + 1) % 0x1_0000
  {
    FinalPush(s.cam.table, s.cam.updateReq, u);
  }

  lemma {:induction false} SenderDeletes(s: System, t: System, u: Update)
    requires s.q.insertReq == [] && s.q.deleteReq != [] && u == s.q.deleteReq[0] && u.Delete? && t == UpdateSender(s)
    ensures FinalOf(t) == FinalOf(s) - {u.key} && t.used == (s.used - 1) % 0x1_0000
  {
    FinalPush(s.cam.table, s.cam.updateReq, u);
  }

  lemma {:induction false} InsertAgreement(s: System)
    requires Inv(s) && s.q.insertReq != []
    ensures Agreement(UpdateSender(s))
  {
    var t, m, u := UpdateSender(s), FinalOf(s), s.q.insertReq[0];
    SenderInserts(s, t, u);
    InsertIsFresh(s);
    forall k: ThreeTuple, id: SessionId ensures Bound(FinalOf(t), k, id) <==> KeyOf(t, id) == Some(k) {
      InsertKey(s, id);
      assert Bound(m, k, id) <==> KeyOf(s, id) == Some(k);
      InsertBound(m, FinalOf(t), u, k, id, KeyOf(s, id), KeyOf(t, id));
    }
  }

  lemma {:induction false} InsertBound(
      m: map<ThreeTuple, SessionId>, m': map<ThreeTuple, SessionId>, u: Update, k: ThreeTuple, id: SessionId,
      was: Option<ThreeTuple>, now: Option<ThreeTuple>)
    requires m' == m[u.key := u.id] && u.key !in m && (Bound(m, k, id) <==> was == Some(k))
    requires now == (if id == u.id then Some(u.key) else was) && (id == u.id ==> was.None?)
    ensures Bound(m', k, id) <==> now == Some(k)
  {}

  lemma {:induction false} DeleteAgreement(s: System)
    requires Inv(s) && s.q.insertReq == [] && s.q.deleteReq != []
    ensures Agreement(UpdateSender(s)) && s.q.deleteReq[0].key in FinalOf(s)
  {
    var t, m, u := UpdateSender(s), FinalOf(s), s.q.deleteReq[0];
    SenderDeletes(s, t, u);
    DeleteKey(s, u.id);
    assert Bound(m, u.key, u.id);
    forall k: ThreeTuple, id: SessionId ensures Bound(FinalOf(t), k, id) <==> KeyOf(t, id) == Some(k) {
      DeleteKey(s, id);
      assert Bound(m, k, id) <==> KeyOf(s, id) == Some(k);
      assert Bound(m, u.key, id) <==> KeyOf(s, id) == Some(u.key);
    }
  }

  lemma {:induction false} SizeAfterInsert(m: map<ThreeTuple, SessionId>, k: ThreeTuple, id: SessionId)
    requires k !in m
    ensures |m[k := id]| == |m| + 1
  {
    assert m[k := id].Keys == m.Keys + {k};
  }

  lemma {:induction false} SizeAfterDelete(m: map<ThreeTuple, SessionId>, k: ThreeTuple)
    requires k in m
    ensures |m - {k}| == |m| - 1
  {
    assert (m - {k}).Keys == m.Keys - {k};
  }

  lemma {:induction false} CountsInsert(used: Word16, after: Word16, m: map<ThreeTuple, SessionId>, k: ThreeTuple, id: SessionId)
    requires used == |m| <= MAX_SESSIONS && k !in m && after == (used + 1) % 0x1_0000
    ensures after == |m[k := id]|
  {
    SizeAfterInsert(m, k, id);
  }

  lemma {:induction false} CountsDelete(used: Word16, after: Word16, m: map<ThreeTuple, SessionId>, k: ThreeTuple)
    requires used == |m| <= MAX_SESSIONS && k in m && after == (used - 1) % 0x1_0000
    ensures after == |m - {k}|
  {
    SizeAfterDelete(m, k);
  }

  lemma {:induction false} SenderCount(s: System)
    requires Kinds(s.q) && s.used == |FinalOf(s)| <= MAX_SESSIONS
    requires s.q.insertReq != [] ==> s.q.insertReq[0].key !in FinalOf(s)
    requires s.q.insertReq == [] && s.q.deleteReq != [] ==> s.q.deleteReq[0].key in FinalOf(s)
    ensures UpdateSender(s).used == |FinalOf(UpdateSender(s))|
  {
    var t := UpdateSender(s);
    if s.q.insertReq != [] {
      var u := s.q.insertReq[0];
      SenderInserts(s, t, u);
      CountsInsert(s.used, t.used, FinalOf(s), u.key, u.id);
    } else if s.q.deleteReq != [] {
      SenderDeletes(s, t, s.q.deleteReq[0]);
      CountsDelete(s.used, t.used, FinalOf(s), s.q.deleteReq[0].key);
    }
  }

  lemma {:induction false} SameKeys(s: System, t: System)
    requires Agreement(s) && FinalOf(t) == FinalOf(s)
    requires forall id: SessionId :: KeyOf(t, id) == KeyOf(s, id)
    ensures Agreement(t)
  {
    forall k: ThreeTuple, id: SessionId ensures Bound(FinalOf(t), k, id) <==> KeyOf(t, id) == Some(k) {
      assert Bound(FinalOf(s), k, id) <==> KeyOf(s, id) == Some(k);
    }
  }

  lemma {:induction false} KeyStep(s: System, a: Action, id: SessionId)
    requires Kinds(s.q) && Phase(s.h, s.cam, s.q) && Partition(s) && !a.UpdateSenderAct?
    ensures KeyOf(Apply(s, a), id) == KeyOf(s, id)
  {
    match a
    case ReplyHandlerAct => HandlerKey(s, id);
    case UpdateReplyAct => ReplyKey(s, id);
    case ReverseAct => ReverseKey(s, id);
    case CamUpdateAct => CamUpdateKey(s, id);
    case IdManagerAct =>
    case _ => ExternalFrame(s, a);
  }

  lemma {:induction false} FinalStep(s: System, a: Action)
    requires !a.UpdateSenderAct?
    ensures FinalOf(Apply(s, a)) == FinalOf(s) && Apply(s, a).used == s.used
  {
    match a
    case CamUpdateAct => if s.cam.updateReq != [] { FinalPop(s.cam.table, s.cam.updateReq); }
    case ReplyHandlerAct => assert ReplyHandler(s).cam.updateReq == s.cam.updateReq;
    case _ =>
  }

  lemma {:induction false} InvStep(s: System, a: Action)
    requires Inv(s)
    ensures Inv(Apply(s, a))
  {
    PhaseStep(s, a);
    PartitionStep(s, a);
    if a.UpdateSenderAct? {
      if s.q.insertReq != [] { InsertAgreement(s); InsertIsFresh(s); } else if s.q.deleteReq != [] { DeleteAgreement(s); }
      AgreementSize(s, FinalOf(s));
      SenderCount(s);
    } else {
      FinalStep(s, a);
      forall id: SessionId ensures KeyOf(Apply(s, a), id) == KeyOf(s, id) { KeyStep(s, a, id); }
      SameKeys(s, Apply(s, a));
    }
  }

  lemma {:induction false} InvInitial(s: System)
    requires Initial(s)
    ensures Inv(s)
  {
    assert Sent(s.cam, s.q) == [];
    forall id: SessionId ensures Places(s, id) == 0 && KeyOf(s, id).None? {
      assert UpdateIds(s.q.insertReq) == [] && UpdateIds(s.q.deleteReq) == [] && RevIds(s.q.revInserts) == [];
    }
  }

  lemma {:induction false} InvRun(s: System, acts: seq<Action>)
    requires Initial(s)
    ensures Inv(Run(s, acts))
    decreases |acts|
  {
    if acts == [] {
      InvInitial(s);
    } else {
      InvRun(s, acts[..|acts|-1]);
      InvStep(Run(s, acts[..|acts|-1]), acts[|acts|-1]);
    }
  }

  // ----- what holds in every reachable state -----

  /** Every ID below the counter is in exactly one place and no other ID is anywhere. */
  lemma {:induction false} PartitionRuns(s: System, acts: seq<Action>)
    requires Initial(s)
    ensures Partition(Run(s, acts))
  {
    InvRun(s, acts);
  }

  /** An insert never overwrites a key of the memory. */
  lemma {:induction false} InsertNeverOverwrites(s: System, acts: seq<Action>, i: nat)
    requires Initial(s)
    requires var t := Run(s, acts); i < |t.cam.updateReq| && t.cam.updateReq[i].Insert?
    ensures Run(s, acts).cam.updateReq[i].key !in Run(s, acts).cam.table
  {
    InvRun(s, acts);
    NoInserts(Run(s, acts).cam.updateReq);
  }

  /** Once the queued updates are applied, two keys never share an ID. */
  lemma {:induction false} MemoryInjective(s: System, acts: seq<Action>, k: ThreeTuple, k': ThreeTuple)
    requires Initial(s)
    requires var m := FinalOf(Run(s, acts)); k in m && k' in m && m[k] == m[k']
    ensures k == k'
  {
    InvRun(s, acts);
    var m := FinalOf(Run(s, acts));
    assert Bound(m, k, m[k]) && Bound(m, k', m[k]);
  }

  /** The forward and reverse indexes agree on every valid ID. */
  lemma {:induction false} IndexesAgree(s: System, acts: seq<Action>, id: SessionId)
    requires Initial(s) && Run(s, acts).rev.valid[id]
    ensures var t := Run(s, acts); t.rev.tuples[id] in FinalOf(t) && FinalOf(t)[t.rev.tuples[id]] == id
  {
    InvRun(s, acts);
    var t := Run(s, acts);
    assert Bound(FinalOf(t), t.rev.tuples[id], id);
  }

  /** IDs run out only when all are in use: as long as the manager can do anything it supplies one more free ID, and when it cannot, each of
      the MAX_SESSIONS IDs is in exactly one place and none waits to be freed. */
  lemma {:induction false} IdsSupplied(s: System, acts: seq<Action>, id: SessionId)
    requires Initial(s)
    ensures var t := Run(s, acts);
            if IdManager(t.ids) == t.ids then t.ids.fin == [] && Places(t, id) == 1
            else |IdManager(t.ids).free| == |t.ids.free| + 1 && IdManager(t.ids).free[..|t.ids.free|] == t.ids.free
  {
    InvRun(s, acts);
    var t := Run(s, acts);
    if t.ids.fin != [] {
      assert |t.ids.fin[1..]| < |t.ids.fin|;
    }
  }

  /** With nothing in flight, the memory is exactly the inverse of the valid part of the reverse table. */
  lemma {:induction false} QuietIndexesAreInverse(s: System, acts: seq<Action>, k: ThreeTuple, id: SessionId)
    requires Initial(s)
    requires var t := Run(s, acts); t.q.revInserts == [] && t.q.deleteReq == [] && t.cam.updateReq == [] && Sent(t.cam, t.q) == []
    ensures var t := Run(s, acts);
            (k in t.cam.table && t.cam.table[k] == id) <==> (t.rev.valid[id] && t.rev.tuples[id] == k)
  {
    InvRun(s, acts);
    var t := Run(s, acts);
    assert Bound(FinalOf(t), k, id) <==> KeyOf(t, id) == Some(k);
  }

  /** An ID on the free list, the next to be handed out, stands for no key anywhere. */
  lemma {:induction false} FreeIdsUnused(s: System, acts: seq<Action>, id: SessionId)
    requires Initial(s) && id in Run(s, acts).ids.free
    ensures var t := Run(s, acts); !t.rev.valid[id] && id !in FinalOf(t).Values
  {
    InvRun(s, acts);
    var t := Run(s, acts);
    OnePlace(t, id);
    if id in FinalOf(t).Values {
      var k :| k in FinalOf(t) && FinalOf(t)[k] == id;
      assert Bound(FinalOf(t), k, id);
    }
  }

  lemma {:induction false} InjectiveSize(m: map<ThreeTuple, SessionId>, n: nat)
    requires forall k, k' :: k in m && k' in m && m[k] == m[k'] ==> k == k'
    requires forall k :: k in m ==> m[k] < n
    ensures |m| <= n
    decreases n
  {
    if n == 0 {
      assert m == map[];
    } else if exists k :: k in m && m[k] == n - 1 {
      var k :| k in m && m[k] == n - 1;
      var r := m - {k};
      assert forall j :: j in r ==> j in m && r[j] == m[j] && j != k;
      InjectiveSize(r, n - 1);
      assert r.Keys == m.Keys - {k};
    } else {
      InjectiveSize(m, n - 1);
    }
  }

  lemma {:induction false} AgreementSize(s: System, m: map<ThreeTuple, SessionId>)
    requires Agreement(s) && m == FinalOf(s)
    ensures |m| <= MAX_SESSIONS
  {
    forall k, k' | k in m && k' in m && m[k] == m[k'] ensures k == k' {
      assert Bound(m, k, m[k]) && Bound(m, k', m[k]);
    }
    InjectiveSize(m, MAX_SESSIONS);
  }

  lemma {:induction false} UsedBound(s: System)
    requires Inv(s)
    ensures s.used == |FinalOf(s)| <= MAX_SESSIONS
  {
    AgreementSize(s, FinalOf(s));
  }

  /** The session counter is the size of the memory after the queued updates, and never exceeds MAX_SESSIONS. */
  lemma {:induction false} UsedCountsTheMemory(s: System, acts: seq<Action>)
    requires Initial(s)
    ensures Run(s, acts).used == |FinalOf(Run(s, acts))| <= MAX_SESSIONS
  {
    InvRun(s, acts);
    UsedBound(Run(s, acts));
  }

  // ----- the processes, step by step -----

  class SessionIdManager {
    var counter: nat
    var newId: seq<SessionId>
    var finId: seq<SessionId>

    method Step()
      requires counter <= MAX_SESSIONS
      modifies this
      ensures Ids(counter, newId, finId) == IdManager(old(Ids(counter, newId, finId)))
    {
      if finId != [] {
        newId, finId := newId + [finId[0]], finId[1..];
      } else if counter < MAX_SESSIONS {
        newId, counter := newId + [counter], counter + 1;
      }
    }
  }

  class LookupReplyHandler {
    var state: HandlerState
    var queryCache: seq<Query>
    var insertTuples: seq<ThreeTuple>
    var rxReq: seq<Query>
    var txReq: seq<ThreeTuple>
    var rxRsp: seq<Reply>
    var txRsp: seq<Reply>
    var freeList: seq<SessionId>
    var lookupReq: seq<LookupRequest>
    var lookupRsp: seq<CamReply>
    var insertReq: seq<Update>
    var insertRsp: seq<UpdateReply>
    var revInserts: seq<RevInsert>

    /** The static state and streams are the ones of system s. */
    ghost predicate Embeds(s: System) reads this {
      && s.h == Handler(state, queryCache, insertTuples, rxReq, txReq, rxRsp, txRsp)
      && s.ids.free == freeList && s.cam.lookupReq == lookupReq && s.cam.lookupRsp == lookupRsp
      && s.q.insertReq == insertReq && s.q.insertRsp == insertRsp && s.q.revInserts == revInserts
    }

    method SendAnswer(source: Source, r: Reply)
      modifies `rxRsp, `txRsp
      ensures rxRsp == if source.FromRx? then old(rxRsp) + [r] else old(rxRsp)
      ensures txRsp == if source.FromRx? then old(txRsp) else old(txRsp) + [r]
    {
      match source
      case FromRx => rxRsp := rxRsp + [r];
      case FromTxApp => txRsp := txRsp + [r];
    }

    method RequestLookup(ghost s: System)
      requires Embeds(s) && state.LupReq?
      modifies this
      ensures Embeds(ReplyHandler(s))
    {
      if txReq != [] {
        var tuple := txReq[0];
        txReq := txReq[1..];
        lookupReq := lookupReq + [LookupRequest(tuple, FromTxApp)];
        queryCache := queryCache + [Query(tuple, true, FromTxApp)];
        state := LupRsp;
      } else if rxReq != [] {
        var query := rxReq[0];
        rxReq := rxReq[1..];
        lookupReq := lookupReq + [LookupRequest(query.tuple, FromRx)];
        queryCache := queryCache + [Query(query.tuple, query.allowCreation, FromRx)];
        state := LupRsp;
      }
    }

    method RequestInsert(tuple: ThreeTuple, source: Source)
      requires freeList != []
      modifies `freeList, `insertReq, `insertTuples, `state
      ensures freeList == old(freeList)[1..] && insertReq == old(insertReq) + [Insert(tuple, old(freeList)[0], source)]
      ensures insertTuples == old(insertTuples) + [tuple] && state == UpdRsp
    {
      var id := freeList[0];
      freeList, insertReq := freeList[1..], insertReq + [Insert(tuple, id, source)];
      insertTuples, state := insertTuples + [tuple], UpdRsp;
    }

    method TakeLookupReply(ghost s: System)
      requires Embeds(s) && state.LupRsp?
      modifies this
      ensures Embeds(ReplyHandler(s))
    {
      if lookupRsp != [] && queryCache != [] {
        var reply, query := lookupRsp[0], queryCache[0];
        lookupRsp, queryCache := lookupRsp[1..], queryCache[1..];
        if !reply.hit && query.allowCreation && freeList != [] {
          RequestInsert(query.tuple, reply.source);
        } else {
          SendAnswer(reply.source, Reply(reply.id, reply.hit));
          state := LupReq;
        }
      }
    }

    method TakeInsertReply(ghost s: System)
      requires Embeds(s) && state.UpdRsp? && (insertRsp != [] ==> insertRsp[0].Inserted?)
      modifies this
      ensures Embeds(ReplyHandler(s))
    {
      if insertRsp != [] && insertTuples != [] {
        var reply, tuple := insertRsp[0], insertTuples[0];
        insertRsp, insertTuples := insertRsp[1..], insertTuples[1..];
        SendAnswer(reply.source, Reply(reply.id, true));
        revInserts := revInserts + [RevInsert(reply.id, tuple)];
        state := LupReq;
      }
    }

    method Step(ghost s: System)
      requires Embeds(s) && Kinds(s.q)
      modifies this
      ensures Embeds(ReplyHandler(s))
    {
      match state
      case LupReq => RequestLookup(s);
      case LupRsp => TakeLookupReply(s);
      case UpdRsp => TakeInsertReply(s);
    }
  }

  class UpdateRequestSender {
    var usedSessionIDs: Word16
    var insertReq: seq<Update>
    var deleteReq: seq<Update>
    var updateReq: seq<Update>
    var finFifo: seq<SessionId>

    ghost predicate Embeds(s: System) reads this {
      && s.used == usedSessionIDs && s.q.insertReq == insertReq && s.q.deleteReq == deleteReq
      && s.cam.updateReq == updateReq && s.ids.fin == finFifo
    }

    method Step(ghost s: System)
      requires Embeds(s)
      modifies this
      ensures Embeds(UpdateSender(s))
    {
      if insertReq != [] {
        updateReq, insertReq := updateReq + [insertReq[0]], insertReq[1..];
        usedSessionIDs := (usedSessionIDs + 1) % 0x1_0000;
      } else if deleteReq != [] {
        var request := deleteReq[0];
        deleteReq := deleteReq[1..];
        updateReq := updateReq + [request];
        finFifo := finFifo + [request.id];
        usedSessionIDs := (usedSessionIDs - 1) % 0x1_0000;
      }
    }
  }

  class ReverseLookupTable {
    const reverseLookupTable: array<ThreeTuple>
    const tupleValid: array<bool>
    var inserts: seq<RevInsert>
    var release: seq<SessionId>
    var revReq: seq<SessionId>
    var releasePort: seq<Word16>
    var deletes: seq<Update>
    var revRsp: seq<ThreeTuple>

    constructor ()
      ensures Valid() && fresh(reverseLookupTable) && fresh(tupleValid)
      ensures View().1 == [] && View().2 == [] && forall id: SessionId :: !View().0.valid[id]
    {
      reverseLookupTable := new ThreeTuple[MAX_SESSIONS](_ => ThreeTuple(0, 0, 0));
      tupleValid := new bool[MAX_SESSIONS](_ => false);
      inserts, release, revReq, releasePort, deletes, revRsp := [], [], [], [], [], [];
    }

    ghost predicate Valid() reads this { reverseLookupTable.Length == MAX_SESSIONS && tupleValid.Length == MAX_SESSIONS }

    ghost function View(): (Reverse, seq<RevInsert>, seq<Update>)
      requires Valid()
      reads this, reverseLookupTable, tupleValid
    {
      (Reverse(reverseLookupTable[..], tupleValid[..], release, releasePort, revReq, revRsp), inserts, deletes)
    }

    method Step()
      requires Valid()
      modifies this, reverseLookupTable, tupleValid
      ensures Valid()
      ensures View() == ReverseTable(old(View()).0, old(View()).1, old(View()).2)
    {
      if inserts != [] {
        var insert := inserts[0];
        inserts := inserts[1..];
        reverseLookupTable[insert.id] := insert.tuple;
        tupleValid[insert.id] := true;
      } else if release != [] {
        var sessionID := release[0];
        release := release[1..];
        var getTuple := reverseLookupTable[sessionID];
        if tupleValid[sessionID] {
          releasePort := releasePort + [getTuple.myPort];
          deletes := deletes + [Delete(getTuple, sessionID)];
        }
        tupleValid[sessionID] := false;
      } else if revReq != [] {
        var sessionID := revReq[0];
        revReq := revReq[1..];
        revRsp := revRsp + [reverseLookupTable[sessionID]];
      }
    }
  }
}
