/** The drop decisions of the RX engine: rxEngVerifyCheckSum, rxEngMetadataHandler and rxEngTcpFSM each send flags for the payload
    packets they see, and rxEngPacketDropper reads the three FIFOs next to the payload FIFO. Nothing but order ties a flag to its
    packet. */
module DropPipeline {
  import opened ToeTypes
  import opened Words
  import opened TcpFsm

  /** A segment: what the processes pass on, and the answer each other unit gives for it. A FIFO of metadata and a FIFO of answers
      both hold segments; a process uses the metadata of the one it reads from the first and the answer of the one it reads from
      the second. */
  datatype Segment = Segment(
    tuple: FourTuple, meta: SegmentMeta, payload: seq<Word>, checksum: Word16, portOpen: bool, hit: bool, state: SessionState, rxSar: RxSarEntry)

  predicate HasPayload(s: Segment) { s.meta.length != 0 }

  predicate LookedUp(s: Segment) { s.checksum == 0 && s.portOpen && s.hit }

  /** All three decisions let the payload pass. */
  predicate Accepted(s: Segment) {
    LookedUp(s) && (DataAccepted(s.meta, s.state, s.rxSar) || FinAccepted(s.meta, s.state, s.rxSar))
  }

  /** What rxEngGetMetaData sends for any packet: words with one last flag, at least one where there is payload. */
  predicate Shaped(s: Segment) { LastOnly(s.payload) && (HasPayload(s) ==> s.payload != []) }

  /** Words are sent for segments with payload only, and payload that reaches the state machine is on an ACK or a FIN-ACK. */
  predicate Matched(s: Segment) {
    if HasPayload(s) then LookedUp(s) ==> IsAck(s.meta) || IsFinAck(s.meta) else s.payload == []
  }

  predicate Wellformed(s: Segment) { Shaped(s) && Matched(s) }

  // ----- the processes -----

  datatype Checker = Checker(meta: Option<Segment>, metaIn: seq<Segment>, rtl: seq<Segment>, rtlPending: seq<Segment>)

  datatype Handler = Handler(
    meta: Option<Segment>, metaIn: seq<Segment>, portRsp: seq<Segment>, portPending: seq<Segment>,
    lookupRsp: seq<Segment>, lookupPending: seq<Segment>)

  datatype Fsm = Fsm(meta: Option<Segment>, metaIn: seq<Segment>, rsp: seq<Segment>, pending: seq<Segment>)

  datatype Mode = ReadVerifyChecksum | ReadMetaHandler | ReadFsmDrop | Forward | Drop

  /** The packet dropper with its four input FIFOs. */
  datatype Dropper = Dropper(
    mode: Mode, verifyDrop: seq<bool>, metaDrop: seq<bool>, fsmDrop: seq<bool>, dataIn: seq<Word>, dataOut: seq<Word>)

  function VerifyStep(c: Checker): (Checker, seq<Segment>, seq<bool>) {
    match c.meta
    case None => if c.metaIn == [] then (c, [], []) else (c.(meta := Some(c.metaIn[0]), metaIn := c.metaIn[1..]), [], [])
    case Some(m) =>
      if c.rtl == [] then (c, [], [])
      else (c.(meta := None, rtl := c.rtl[1..]),
            if c.rtl[0].checksum == 0 then [m] else [], if HasPayload(m) then [c.rtl[0].checksum != 0] else [])
  }

  /** The third component: what goes to the lookup; the fourth: what goes to the state machine. */
  function HandleStep(h: Handler): (Handler, seq<bool>, seq<Segment>) {
    match h.meta
    case None =>
      if h.metaIn == [] || h.portRsp == [] then (h, [], [])
      else if !h.portRsp[0].portOpen then
        (h.(metaIn := h.metaIn[1..], portRsp := h.portRsp[1..]), if HasPayload(h.metaIn[0]) then [true] else [], [])
      else
        (h.(metaIn := h.metaIn[1..], portRsp := h.portRsp[1..], meta := Some(h.metaIn[0]), lookupPending := h.lookupPending + [h.metaIn[0]]),
         [], [])
    case Some(m) =>
      if h.lookupRsp == [] then (h, [], [])
      else (h.(meta := None, lookupRsp := h.lookupRsp[1..]), if HasPayload(m) then [!h.lookupRsp[0].hit] else [],
            if h.lookupRsp[0].hit then [m] else [])
  }

  function FsmStep(f: Fsm): (Fsm, seq<bool>) {
    match f.meta
    case None =>
      if f.metaIn == [] then (f, [])
      else (f.(meta := Some(f.metaIn[0]), metaIn := f.metaIn[1..], pending := f.pending + [f.metaIn[0]]), [])
    case Some(m) =>
      if f.rsp == [] then (f, []) else (f.(meta := None, rsp := f.rsp[1..]), Drops(m.meta, f.rsp[0].state, f.rsp[0].rxSar))
  }

  function DropStep(d: Dropper): Dropper {
    match d.mode
    case ReadVerifyChecksum =>
      if d.verifyDrop == [] then d
      else d.(verifyDrop := d.verifyDrop[1..], mode := if d.verifyDrop[0] then Drop else ReadMetaHandler)
    case ReadMetaHandler =>
      if d.metaDrop == [] then d else d.(metaDrop := d.metaDrop[1..], mode := if d.metaDrop[0] then Drop else ReadFsmDrop)
    case ReadFsmDrop =>
      if d.fsmDrop == [] then d else d.(fsmDrop := d.fsmDrop[1..], mode := if d.fsmDrop[0] then Drop else Forward)
    case Forward =>
      if d.dataIn == [] then d
      else d.(dataIn := d.dataIn[1..], dataOut := d.dataOut + [d.dataIn[0]],
              mode := if d.dataIn[0].last then ReadVerifyChecksum else Forward)
    case Drop =>
      if d.dataIn == [] then d else d.(dataIn := d.dataIn[1..], mode := if d.dataIn[0].last then ReadVerifyChecksum else Drop)
  }

  // ----- the pipeline -----

  /** The processes, and the history of the payload: the segments whose packets the dropper is done with, those it is not, and how
      many words of the current one it has taken. */
  datatype System = System(
    checker: Checker, handler: Handler, fsm: Fsm, dropper: Dropper, arrived: seq<Segment>,
    done: seq<Segment>, left: seq<Segment>, taken: nat)

  datatype Event =
    | Arrive(s: Segment)   // rxEngGetMetaData hands on a segment
    | ChecksumDone         // the checksum unit delivers the next result
    | PortDone             // the port table answers the oldest query
    | LookupDone           // the session lookup answers the oldest query
    | TablesDone           // state table and SAR tables answer the oldest query
    | Verify
    | Handle
    | Transit
    | DropOrForward

  const INITIAL: System := System(Checker(None, [], [], []), Handler(None, [], [], [], [], []), Fsm(None, [], [], []),
                                  Dropper(ReadVerifyChecksum, [], [], [], [], []), [], [], [], 0)

  function Arriving(s: Segment): seq<Segment> { if HasPayload(s) then [s] else [] }

  /** The history behind a step of the dropper. */
  function Account(y: System, d: Dropper): System {
    if y.left == [] || !(y.dropper.mode.Forward? || y.dropper.mode.Drop?) || |d.dataIn| == |y.dropper.dataIn| then y.(dropper := d)
    else if d.mode.ReadVerifyChecksum? then y.(dropper := d, done := y.done + [y.left[0]], left := y.left[1..], taken := 0)
    else y.(dropper := d, taken := y.taken + 1)
  }

  function Step(y: System, e: Event): System {
    match e
    case Arrive(s) =>
      y.(checker := y.checker.(metaIn := y.checker.metaIn + [s], rtlPending := y.checker.rtlPending + [s]),
         dropper := y.dropper.(dataIn := y.dropper.dataIn + s.payload),
         arrived := y.arrived + [s], left := y.left + Arriving(s))
    case ChecksumDone =>
      if y.checker.rtlPending == [] then y
      else y.(checker := y.checker.(rtl := y.checker.rtl + [y.checker.rtlPending[0]], rtlPending := y.checker.rtlPending[1..]))
    case PortDone =>
      if y.handler.portPending == [] then y
      else y.(handler := y.handler.(portRsp := y.handler.portRsp + [y.handler.portPending[0]], portPending := y.handler.portPending[1..]))
    case LookupDone =>
      if y.handler.lookupPending == [] then y
      else y.(handler := y.handler.(lookupRsp := y.handler.lookupRsp + [y.handler.lookupPending[0]],
                                    lookupPending := y.handler.lookupPending[1..]))
    case TablesDone =>
      if y.fsm.pending == [] then y
      else y.(fsm := y.fsm.(rsp := y.fsm.rsp + [y.fsm.pending[0]], pending := y.fsm.pending[1..]))
    case Verify =>
      var (c, valid, flags) := VerifyStep(y.checker);
      y.(checker := c, handler := y.handler.(metaIn := y.handler.metaIn + valid, portPending := y.handler.portPending + valid),
         dropper := y.dropper.(verifyDrop := y.dropper.verifyDrop + flags))
    case Handle =>
      var (h, flags, hits) := HandleStep(y.handler);
      y.(handler := h, fsm := y.fsm.(metaIn := y.fsm.metaIn + hits), dropper := y.dropper.(metaDrop := y.dropper.metaDrop + flags))
    case Transit =>
      var (f, flags) := FsmStep(y.fsm);
      y.(fsm := f, dropper := y.dropper.(fsmDrop := y.dropper.fsmDrop + flags))
    case DropOrForward =>
      Account(y, DropStep(y.dropper))
  }

  function Run(y: System, events: seq<Event>): System { RunOf(Step, y, events) }

  predicate InputOk(e: Event) { e.Arrive? ==> Wellformed(e.s) }

  predicate InputsOk(events: seq<Event>) { forall i {:trigger events[i]} :: 0 <= i < |events| ==> InputOk(events[i]) }

  // ----- flags owed -----

  datatype Stage = AtChecksum | AtLookup | AtFsm

  /** The flag a stage owes the dropper for a segment that reaches it. */
  function FlagOf(k: Stage, s: Segment): seq<bool> {
    if !HasPayload(s) then []
    else match k
      case AtChecksum => [s.checksum != 0]
      case AtLookup => if s.checksum == 0 then [!(s.portOpen && s.hit)] else []
      case AtFsm => if LookedUp(s) then [!Accepted(s)] else []
  }

  function Flagger(k: Stage): Segment -> seq<bool> { s => FlagOf(k, s) }

  function Gather(f: Segment -> seq<bool>, xs: seq<Segment>): seq<bool> { if xs == [] then [] else f(xs[0]) + Gather(f, xs[1..]) }

  function Flags(k: Stage, xs: seq<Segment>): seq<bool> { Gather(Flagger(k), xs) }

  lemma {:induction false} Associate<T>(a: seq<T>, b: seq<T>, c: seq<T>)
    ensures a + (b + c) == (a + b) + c
  {}

  lemma {:induction false} GatherCat(f: Segment -> seq<bool>, a: seq<Segment>, b: seq<Segment>)
    ensures Gather(f, a + b) == Gather(f, a) + Gather(f, b)
  {
    if a == [] {
      assert a + b == b;
    } else {
      GatherCat(f, a[1..], b);
      assert (a + b)[1..] == a[1..] + b;
      Associate(f(a[0]), Gather(f, a[1..]), Gather(f, b));
    }
  }

  lemma {:induction false} GatherOne(f: Segment -> seq<bool>, s: Segment)
    ensures Gather(f, [s]) == f(s)
  {
    assert [s][1..] == [];
  }

  /** The flags a list of segments owes, by whatever function adds them up. */
  type Owing = (Stage, seq<Segment>) -> seq<bool>

  predicate AddsAt(owed: Owing, k: Stage, a: seq<Segment>, b: seq<Segment>) { owed(k, a + b) == owed(k, a) + owed(k, b) }

  predicate OneAt(owed: Owing, k: Stage, s: Segment) { owed(k, [s]) == FlagOf(k, s) }

  ghost predicate Adds(owed: Owing) {
    && (forall k, a, b {:trigger AddsAt(owed, k, a, b)} :: AddsAt(owed, k, a, b))
    && (forall k, s {:trigger OneAt(owed, k, s)} :: OneAt(owed, k, s))
  }

  lemma {:induction false} FlagsAdd()
    ensures Adds(Flags)
  {
    forall k, a, b ensures AddsAt(Flags, k, a, b) { GatherCat(Flagger(k), a, b); }
    forall k, s ensures OneAt(Flags, k, s) { GatherOne(Flagger(k), s); }
  }

  lemma {:induction false} OwedCat(owed: Owing, k: Stage, a: seq<Segment>, b: seq<Segment>)
    requires Adds(owed)
    ensures owed(k, a + b) == owed(k, a) + owed(k, b)
  {
    assert AddsAt(owed, k, a, b);
  }

  lemma {:induction false} OwedOne(owed: Owing, k: Stage, s: Segment)
    requires Adds(owed)
    ensures owed(k, [s]) == FlagOf(k, s)
  {
    assert OneAt(owed, k, s);
  }

  lemma {:induction false} OwedNothing(owed: Owing, k: Stage)
    requires Adds(owed)
    ensures owed(k, []) == []
  {
    OwedCat(owed, k, [], []);
    var none: seq<Segment> := [];
    assert none + none == none;
    assert |owed(k, none + none)| == |owed(k, none)| + |owed(k, none)|;
  }

  lemma {:induction false} OwedHead(owed: Owing, k: Stage, left: seq<Segment>)
    requires Adds(owed) && left != []
    ensures owed(k, left) == FlagOf(k, left[0]) + owed(k, left[1..])
  {
    assert left == [left[0]] + left[1..];
    OwedCat(owed, k, [left[0]], left[1..]);
    OwedOne(owed, k, left[0]);
  }

  /** The flag the state machine sends is the one owed; any other payload segment gets none. */
  lemma {:induction false} FsmFlag(s: Segment)
    requires HasPayload(s) && LookedUp(s)
    ensures Drops(s.meta, s.state, s.rxSar) == FlagOf(AtFsm, s) <==> IsAck(s.meta) || IsFinAck(s.meta)
  {}

  function Held(m: Option<Segment>): seq<Segment> { match m case None => [] case Some(s) => [s] }

  function CheckerQueue(c: Checker): seq<Segment> { Held(c.meta) + c.metaIn }
  function HandlerQueue(h: Handler): seq<Segment> { Held(h.meta) + h.metaIn }
  function FsmQueue(f: Fsm): seq<Segment> { Held(f.meta) + f.metaIn }

  /** The segments a stage has not decided yet, oldest first. */
  function Pool(k: Stage, y: System): seq<Segment> {
    match k
    case AtChecksum => CheckerQueue(y.checker)
    case AtLookup => HandlerQueue(y.handler) + CheckerQueue(y.checker)
    case AtFsm => FsmQueue(y.fsm) + (HandlerQueue(y.handler) + CheckerQueue(y.checker))
  }

  function Fifo(k: Stage, d: Dropper): seq<bool> {
    match k
    case AtChecksum => d.verifyDrop
    case AtLookup => d.metaDrop
    case AtFsm => d.fsmDrop
  }

  /** Whether the dropper still has to ask a stage about its current packet. */
  predicate Unread(k: Stage, m: Mode) {
    m.ReadVerifyChecksum? || (m.ReadMetaHandler? && !k.AtChecksum?) || (m.ReadFsmDrop? && k.AtFsm?)
  }

  function Ahead(k: Stage, m: Mode, left: seq<Segment>): seq<Segment> { if Unread(k, m) || left == [] then left else left[1..] }

  /** The flags in the FIFO and those still owed are the ones the dropper will ask for, in order. */
  predicate FlagsMatch(owed: Owing, k: Stage, y: System) {
    Fifo(k, y.dropper) + owed(k, Pool(k, y)) == owed(k, Ahead(k, y.dropper.mode, y.left))
  }

  /** Every answer in a FIFO, or still owed, belongs to the metadata it will be read with. */
  predicate AnswersMatch(y: System) {
    && CheckerQueue(y.checker) == y.checker.rtl + y.checker.rtlPending
    && y.handler.metaIn == y.handler.portRsp + y.handler.portPending
    && Held(y.handler.meta) == y.handler.lookupRsp + y.handler.lookupPending
    && Held(y.fsm.meta) == y.fsm.rsp + y.fsm.pending
    && (y.handler.meta.Some? ==> y.handler.meta.value.portOpen)
  }

  /** What is known of the segments that reached a stage. */
  predicate Reached(k: Stage, s: Segment) {
    Wellformed(s) && (!k.AtChecksum? ==> s.checksum == 0) && (k.AtFsm? ==> LookedUp(s))
  }

  predicate AllReached(k: Stage, xs: seq<Segment>) { forall s {:trigger Reached(k, s)} :: s in xs ==> Reached(k, s) }

  /** What the dropper's place says about its current packet. */
  predicate ModeMatches(m: Mode, left: seq<Segment>) {
    m.ReadVerifyChecksum?
    || (left != [] && HasPayload(left[0])
        && match m
           case ReadMetaHandler => left[0].checksum == 0
           case ReadFsmDrop => LookedUp(left[0])
           case Forward => Accepted(left[0])
           case _ => !Accepted(left[0]))
  }

  function WordsOf(xs: seq<Segment>): seq<Word> { if xs == [] then [] else xs[0].payload + WordsOf(xs[1..]) }

  /** The payload that is to come out: that of the accepted segments. */
  function Passing(xs: seq<Segment>): seq<Word> {
    if xs == [] then [] else Passing(xs[..|xs| - 1]) + if Accepted(xs[|xs| - 1]) then xs[|xs| - 1].payload else []
  }

  function WithPayload(xs: seq<Segment>): seq<Segment> {
    if xs == [] then [] else WithPayload(xs[..|xs| - 1]) + Arriving(xs[|xs| - 1])
  }

  /** The payload FIFO holds the rest of the current packet and the packets behind it. */
  predicate InFifo(left: seq<Segment>, taken: nat, words: seq<Word>) {
    if left == [] then words == [] && taken == 0
    else taken < |left[0].payload| && words == left[0].payload[taken..] + WordsOf(left[1..])
  }

  /** What left the dropper is the payload of the accepted segments it is done with, and of the current one what was forwarded
      already. */
  predicate DataMatches(y: System) {
    && (y.taken > 0 ==> y.dropper.mode.Forward? || y.dropper.mode.Drop?)
    && InFifo(y.left, y.taken, y.dropper.dataIn)
    && y.dropper.dataOut == Passing(y.done) + (if y.dropper.mode.Forward? && y.left != [] then y.left[0].payload[..y.taken] else [])
  }

  predicate PayloadSegments(xs: seq<Segment>) { forall s {:trigger s in xs} :: s in xs ==> HasPayload(s) && Wellformed(s) }

  predicate FlagsInv(owed: Owing, y: System) { FlagsMatch(owed, AtChecksum, y) && FlagsMatch(owed, AtLookup, y) && FlagsMatch(owed, AtFsm, y) }

  predicate QueuesInv(y: System) {
    && AllReached(AtChecksum, CheckerQueue(y.checker)) && AllReached(AtLookup, HandlerQueue(y.handler))
    && AllReached(AtFsm, FsmQueue(y.fsm))
  }

  predicate DataInv(y: System) {
    && ModeMatches(y.dropper.mode, y.left) && PayloadSegments(y.left) && DataMatches(y)
    && WithPayload(y.arrived) == y.done + y.left
  }

  predicate Inv(owed: Owing, y: System) { AnswersMatch(y) && FlagsInv(owed, y) && QueuesInv(y) && DataInv(y) }

  // ----- arrival -----

  lemma {:induction false} AheadSnoc(k: Stage, m: Mode, left: seq<Segment>, s: Segment)
    requires m.ReadVerifyChecksum? || left != []
    ensures Ahead(k, m, left + [s]) == Ahead(k, m, left) + [s]
  {}

  /** One more segment behind the pool of a stage and behind the packets to come. */
  lemma {:induction false} OneMoreOwed(owed: Owing, k: Stage, fifo: seq<bool>, pool: seq<Segment>, ahead: seq<Segment>, s: Segment)
    requires Adds(owed) && fifo + owed(k, pool) == owed(k, ahead)
    ensures fifo + owed(k, pool + [s]) == owed(k, ahead + Arriving(s))
  {
    OwedCat(owed, k, pool, [s]);
    OwedCat(owed, k, ahead, [s]);
    OwedOne(owed, k, s);
    assert fifo + (owed(k, pool) + FlagOf(k, s)) == (fifo + owed(k, pool)) + FlagOf(k, s);
    if !HasPayload(s) { assert ahead + Arriving(s) == ahead; }
  }

  lemma {:induction false} PoolArrive(k: Stage, y: System, s: Segment)
    ensures Pool(k, Step(y, Arrive(s))) == Pool(k, y) + [s]
  {
    var z := Step(y, Arrive(s));
    assert CheckerQueue(z.checker) == CheckerQueue(y.checker) + [s];
  }

  lemma {:induction false} FlagsArrive(owed: Owing, k: Stage, y: System, s: Segment)
    requires Adds(owed) && FlagsMatch(owed, k, y) && ModeMatches(y.dropper.mode, y.left)
    ensures FlagsMatch(owed, k, Step(y, Arrive(s)))
  {
    PoolArrive(k, y, s);
    OneMoreOwed(owed, k, Fifo(k, y.dropper), Pool(k, y), Ahead(k, y.dropper.mode, y.left), s);
    if HasPayload(s) {
      AheadSnoc(k, y.dropper.mode, y.left, s);
    } else {
      assert y.left + Arriving(s) == y.left;
      assert Ahead(k, y.dropper.mode, y.left) + Arriving(s) == Ahead(k, y.dropper.mode, y.left);
    }
  }

  lemma {:induction false} WordsSnoc(xs: seq<Segment>, s: Segment)
    ensures WordsOf(xs + [s]) == WordsOf(xs) + s.payload
  {
    if xs == [] {
      assert xs + [s] == [s] && [s][1..] == [];
    } else {
      WordsSnoc(xs[1..], s);
      assert (xs + [s])[1..] == xs[1..] + [s];
    }
  }

  lemma {:induction false} FifoArrive(left: seq<Segment>, taken: nat, words: seq<Word>, s: Segment)
    requires InFifo(left, taken, words) && s.payload != []
    ensures InFifo(left + [s], taken, words + s.payload)
  {
    if left == [] {
      assert [] + [s] == [s] && [s][1..] == [] && s.payload[0..] == s.payload;
    } else {
      WordsSnoc(left[1..], s);
      assert (left + [s])[1..] == left[1..] + [s];
      Associate(left[0].payload[taken..], WordsOf(left[1..]), s.payload);
    }
  }

  lemma {:induction false} ArriveEffect(y: System, z: System, s: Segment)
    requires z == Step(y, Arrive(s))
    ensures z.dropper == y.dropper.(dataIn := y.dropper.dataIn + s.payload)
    ensures z.left == (if HasPayload(s) then y.left + [s] else y.left) && z.done == y.done && z.taken == y.taken
    ensures z.arrived == y.arrived + [s]
  {}

  lemma {:induction false} DataArrive(y: System, z: System, s: Segment)
    requires DataMatches(y) && Wellformed(s) && z.done == y.done && z.taken == y.taken
    requires z.left == (if HasPayload(s) then y.left + [s] else y.left)
    requires z.dropper == y.dropper.(dataIn := y.dropper.dataIn + s.payload)
    ensures DataMatches(z)
  {
    if HasPayload(s) {
      FifoArrive(y.left, y.taken, y.dropper.dataIn, s);
      if y.left == [] { assert s.payload[..0] == []; }
    } else {
      assert y.dropper.dataIn + [] == y.dropper.dataIn;
    }
  }

  lemma {:induction false} InvArrive(owed: Owing, y: System, s: Segment)
    requires Adds(owed) && Inv(owed, y) && Wellformed(s)
    ensures Inv(owed, Step(y, Arrive(s)))
  {
    FlagsArrive(owed, AtChecksum, y, s);
    FlagsArrive(owed, AtLookup, y, s);
    FlagsArrive(owed, AtFsm, y, s);
    var z := Step(y, Arrive(s));
    ArriveEffect(y, z, s);
    DataArrive(y, z, s);
    QueueArrive(y, s);
    HistoryArrive(y, z, s);
  }

  lemma {:induction false} QueueArrive(y: System, s: Segment)
    requires AnswersMatch(y) && AllReached(AtChecksum, CheckerQueue(y.checker)) && Wellformed(s)
    ensures var z := Step(y, Arrive(s)); AnswersMatch(z) && AllReached(AtChecksum, CheckerQueue(z.checker))
  {
    Associate(Held(y.checker.meta), y.checker.metaIn, [s]);
    Associate(y.checker.rtl, y.checker.rtlPending, [s]);
    ArrivesReached(CheckerQueue(y.checker), s);
  }

  lemma {:induction false} ArrivesReached(q: seq<Segment>, s: Segment)
    requires AllReached(AtChecksum, q) && Wellformed(s)
    ensures AllReached(AtChecksum, q + [s])
  {
    forall x | x in q + [s] ensures Reached(AtChecksum, x) { if x in q { assert Reached(AtChecksum, x); } }
  }

  lemma {:induction false} HistoryArrive(y: System, z: System, s: Segment)
    requires Wellformed(s) && ModeMatches(y.dropper.mode, y.left) && PayloadSegments(y.left) && WithPayload(y.arrived) == y.done + y.left
    requires z.left == (if HasPayload(s) then y.left + [s] else y.left) && z.done == y.done && z.arrived == y.arrived + [s]
    requires z.dropper.mode == y.dropper.mode
    ensures ModeMatches(z.dropper.mode, z.left) && PayloadSegments(z.left) && WithPayload(z.arrived) == z.done + z.left
  {
    WithPayloadSnoc(y.arrived, s);
    if HasPayload(s) { Associate(y.done, y.left, [s]); }
  }

  lemma {:induction false} WithPayloadSnoc(xs: seq<Segment>, s: Segment)
    ensures WithPayload(xs + [s]) == if HasPayload(s) then WithPayload(xs) + [s] else WithPayload(xs)
  {
    assert (xs + [s])[..|xs|] == xs;
  }

  // ----- the answers -----

  lemma {:induction false} OldestMoved(a: seq<Segment>, b: seq<Segment>)
    requires b != []
    ensures (a + [b[0]]) + b[1..] == a + b
  {}

  /** An answer moves from the pending ones to its FIFO, and nothing else changes. */
  lemma {:induction false} InvAnswer(owed: Owing, y: System, e: Event)
    requires Adds(owed)
    requires Inv(owed, y) && (e.ChecksumDone? || e.PortDone? || e.LookupDone? || e.TablesDone?)
    ensures Inv(owed, Step(y, e))
  {
    var z := Step(y, e);
    AnswersMoved(y, e);
    AnswerEffect(y, z, e);
    SameQueues(owed, AtChecksum, y, z);
    SameQueues(owed, AtLookup, y, z);
    SameQueues(owed, AtFsm, y, z);
    SameData(y, z);
  }

  lemma {:induction false} AnswerEffect(y: System, z: System, e: Event)
    requires z == Step(y, e) && (e.ChecksumDone? || e.PortDone? || e.LookupDone? || e.TablesDone?)
    ensures z == y.(checker := z.checker, handler := z.handler, fsm := z.fsm)
    ensures CheckerQueue(z.checker) == CheckerQueue(y.checker) && HandlerQueue(z.handler) == HandlerQueue(y.handler)
    ensures FsmQueue(z.fsm) == FsmQueue(y.fsm)
  {}

  lemma {:induction false} AnswersMoved(y: System, e: Event)
    requires AnswersMatch(y) && (e.ChecksumDone? || e.PortDone? || e.LookupDone? || e.TablesDone?)
    ensures AnswersMatch(Step(y, e))
  {
    if e.ChecksumDone? && y.checker.rtlPending != [] { OldestMoved(y.checker.rtl, y.checker.rtlPending); }
    if e.PortDone? && y.handler.portPending != [] { OldestMoved(y.handler.portRsp, y.handler.portPending); }
    if e.LookupDone? && y.handler.lookupPending != [] { OldestMoved(y.handler.lookupRsp, y.handler.lookupPending); }
    if e.TablesDone? && y.fsm.pending != [] { OldestMoved(y.fsm.rsp, y.fsm.pending); }
  }

  lemma {:induction false} SameQueues(owed: Owing, k: Stage, y: System, z: System)
    requires Adds(owed) && FlagsMatch(owed, k, y) && z.dropper == y.dropper && z.left == y.left
    requires CheckerQueue(z.checker) == CheckerQueue(y.checker) && HandlerQueue(z.handler) == HandlerQueue(y.handler)
    requires FsmQueue(z.fsm) == FsmQueue(y.fsm)
    ensures FlagsMatch(owed, k, z)
  {}

  // ----- a stage decides -----

  /** The oldest segment of a pool decided: its flag is in the FIFO. */
  lemma {:induction false} Decided(owed: Owing, k: Stage, fifo: seq<bool>, pool: seq<Segment>, s: Segment, rest: seq<Segment>, ahead: seq<Segment>)
    requires Adds(owed) && pool == [s] + rest && fifo + owed(k, pool) == owed(k, ahead)
    ensures (fifo + FlagOf(k, s)) + owed(k, rest) == owed(k, ahead)
  {
    OwedCat(owed, k, [s], rest);
    OwedOne(owed, k, s);
    assert (fifo + FlagOf(k, s)) + owed(k, rest) == fifo + (FlagOf(k, s) + owed(k, rest));
  }

  /** A segment that owes a stage no flag may leave its pool. */
  lemma {:induction false} Left(owed: Owing, k: Stage, a: seq<Segment>, s: Segment, b: seq<Segment>)
    requires Adds(owed) && FlagOf(k, s) == []
    ensures owed(k, a + ([s] + b)) == owed(k, a + b)
  {
    OwedCat(owed, k, a, [s] + b);
    OwedCat(owed, k, [s], b);
    OwedOne(owed, k, s);
    OwedCat(owed, k, a, b);
  }

  /** The checker decides on the segment it holds. */
  lemma {:induction false} VerifyFlags(owed: Owing, y: System)
    requires Adds(owed) && AnswersMatch(y) && FlagsInv(owed, y)
    ensures FlagsInv(owed, Step(y, Verify))
  {
    var z := Step(y, Verify);
    if y.checker.meta.Some? && y.checker.rtl != [] {
      VerifyDecides(y, z);
      Verified(owed, y, z, y.checker.meta.value, y.checker.metaIn);
    } else {
      VerifyWaits(y, z);
      SameQueues(owed, AtChecksum, y, z);
      SameQueues(owed, AtLookup, y, z);
      SameQueues(owed, AtFsm, y, z);
    }
  }

  lemma {:induction false} VerifyWaits(y: System, z: System)
    requires z == Step(y, Verify) && (y.checker.meta.None? || y.checker.rtl == [])
    ensures CheckerQueue(z.checker) == CheckerQueue(y.checker) && HandlerQueue(z.handler) == HandlerQueue(y.handler)
    ensures z.fsm == y.fsm && z.dropper == y.dropper && z.left == y.left
  {}

  lemma {:induction false} VerifyDecides(y: System, z: System)
    requires AnswersMatch(y) && z == Step(y, Verify) && y.checker.meta.Some? && y.checker.rtl != []
    ensures var s, rest := y.checker.meta.value, y.checker.metaIn;
            && y.checker.rtl[0] == s && CheckerQueue(y.checker) == [s] + rest && CheckerQueue(z.checker) == rest
            && HandlerQueue(z.handler) == (if s.checksum == 0 then HandlerQueue(y.handler) + [s] else HandlerQueue(y.handler))
            && z.fsm == y.fsm && z.dropper == y.dropper.(verifyDrop := y.dropper.verifyDrop + FlagOf(AtChecksum, s)) && z.left == y.left
  {
    assert CheckerQueue(y.checker)[0] == y.checker.meta.value;
  }

  lemma {:induction false} Verified(owed: Owing, y: System, z: System, s: Segment, rest: seq<Segment>)
    requires Adds(owed) && FlagsInv(owed, y) && CheckerQueue(y.checker) == [s] + rest && CheckerQueue(z.checker) == rest
    requires HandlerQueue(z.handler) == if s.checksum == 0 then HandlerQueue(y.handler) + [s] else HandlerQueue(y.handler)
    requires z.fsm == y.fsm && z.dropper == y.dropper.(verifyDrop := y.dropper.verifyDrop + FlagOf(AtChecksum, s)) && z.left == y.left
    ensures FlagsInv(owed, z)
  {
    StageDecides(owed, AtChecksum, y, z, s, rest);
    PassOn(owed, AtLookup, y, z, s, rest);
    PassOn(owed, AtFsm, y, z, s, rest);
  }

  /** A stage whose pool owes the same flags as before. */
  lemma {:induction false} SameFlags(owed: Owing, k: Stage, y: System, z: System)
    requires Adds(owed) && FlagsMatch(owed, k, y) && owed(k, Pool(k, z)) == owed(k, Pool(k, y))
    requires Fifo(k, z.dropper) == Fifo(k, y.dropper) && z.dropper.mode == y.dropper.mode && z.left == y.left
    ensures FlagsMatch(owed, k, z)
  {}

  lemma {:induction false} PassedFlags(owed: Owing, k: Stage, a: seq<Segment>, s: Segment, b: seq<Segment>, pool: seq<Segment>, kept: bool)
    requires Adds(owed)
    requires pool == if kept then (a + [s]) + b else a + b
    requires kept || FlagOf(k, s) == []
    ensures owed(k, pool) == owed(k, a + ([s] + b))
  {
    if kept { assert (a + [s]) + b == a + ([s] + b); } else { Left(owed, k, a, s, b); }
  }

  /** A segment passed on from the queue behind a to the end of a, or dropped there owing nothing to a later stage. */
  lemma {:induction false} Passed(owed: Owing, k: Stage, y: System, z: System, a: seq<Segment>, s: Segment, b: seq<Segment>, kept: bool)
    requires Adds(owed)
    requires FlagsMatch(owed, k, y) && Pool(k, y) == a + ([s] + b) && Pool(k, z) == if kept then (a + [s]) + b else a + b
    requires kept || FlagOf(k, s) == []
    requires Fifo(k, z.dropper) == Fifo(k, y.dropper) && z.dropper.mode == y.dropper.mode && z.left == y.left
    ensures FlagsMatch(owed, k, z)
  {
    PassedFlags(owed, k, a, s, b, Pool(k, z), kept);
    SameFlags(owed, k, y, z);
  }

  lemma {:induction false} PassOn(owed: Owing, k: Stage, y: System, z: System, s: Segment, rest: seq<Segment>)
    requires Adds(owed) && !k.AtChecksum? && CheckerQueue(y.checker) == [s] + rest && CheckerQueue(z.checker) == rest
    requires HandlerQueue(z.handler) == if s.checksum == 0 then HandlerQueue(y.handler) + [s] else HandlerQueue(y.handler)
    requires FsmQueue(z.fsm) == FsmQueue(y.fsm) && Fifo(k, z.dropper) == Fifo(k, y.dropper)
    requires z.dropper.mode == y.dropper.mode && z.left == y.left && FlagsMatch(owed, k, y)
    ensures FlagsMatch(owed, k, z)
  {
    var h := HandlerQueue(y.handler);
    if k.AtFsm? {
      PassOnBehind(owed, y, z, FsmQueue(y.fsm), h, s, rest);
    } else {
      Passed(owed, k, y, z, h, s, rest, s.checksum == 0);
    }
  }

  lemma {:induction false} PassOnBehind(owed: Owing, y: System, z: System, f: seq<Segment>, h: seq<Segment>, s: Segment, rest: seq<Segment>)
    requires Adds(owed) && FlagsMatch(owed, AtFsm, y) && Pool(AtFsm, y) == f + (h + ([s] + rest))
    requires Pool(AtFsm, z) == f + ((if s.checksum == 0 then h + [s] else h) + rest)
    requires z.dropper.fsmDrop == y.dropper.fsmDrop && z.dropper.mode == y.dropper.mode && z.left == y.left
    ensures FlagsMatch(owed, AtFsm, z)
  {
    Associate(f, h, [s] + rest);
    if s.checksum == 0 {
      Associate(f, h + [s], rest);
      Associate(f, h, [s]);
    } else {
      Associate(f, h, rest);
    }
    Passed(owed, AtFsm, y, z, f + h, s, rest, s.checksum == 0);
  }

  lemma {:induction false} DropOldest(a: seq<Segment>, b: seq<Segment>)
    requires a != []
    ensures (a + b)[0] == a[0] && (a + b)[1..] == a[1..] + b
  {}

  lemma {:induction false} VerifyAnswers(y: System, z: System)
    requires AnswersMatch(y) && z == Step(y, Verify)
    ensures AnswersMatch(z)
  {
    var c := y.checker;
    if c.meta.Some? && c.rtl != [] {
      VerifyDecides(y, z);
      DropOldest(c.rtl, c.rtlPending);
      assert ([c.meta.value] + c.metaIn)[1..] == c.metaIn;
      Associate(y.handler.portRsp, y.handler.portPending, [c.meta.value]);
      assert z.checker == c.(meta := None, rtl := c.rtl[1..]);
      VerifyPasses(y, z, c.meta.value);
    } else {
      VerifyWaits(y, z);
      assert z.checker.rtl == c.rtl && z.checker.rtlPending == c.rtlPending && z.handler.meta == y.handler.meta;
    }
  }

  lemma {:induction false} VerifyPasses(y: System, z: System, s: Segment)
    requires z == Step(y, Verify) && y.checker.meta == Some(s) && y.checker.rtl != [] && y.checker.rtl[0] == s
    ensures z.handler == if s.checksum == 0 then y.handler.(metaIn := y.handler.metaIn + [s], portPending := y.handler.portPending + [s])
                         else y.handler
  {
    assert y.handler.metaIn + [] == y.handler.metaIn && y.handler.portPending + [] == y.handler.portPending;
  }

  lemma {:induction false} VerifyReached(y: System, z: System)
    requires AnswersMatch(y) && AllReached(AtChecksum, CheckerQueue(y.checker)) && AllReached(AtLookup, HandlerQueue(y.handler))
    requires z == Step(y, Verify)
    ensures AllReached(AtChecksum, CheckerQueue(z.checker)) && AllReached(AtLookup, HandlerQueue(z.handler))
  {
    if y.checker.meta.Some? && y.checker.rtl != [] {
      VerifyDecides(y, z);
      ReachedOn(y.checker.meta.value, y.checker.metaIn, HandlerQueue(y.handler));
    } else {
      VerifyWaits(y, z);
    }
  }

  lemma {:induction false} ReachedOn(s: Segment, rest: seq<Segment>, h: seq<Segment>)
    requires AllReached(AtChecksum, [s] + rest) && AllReached(AtLookup, h)
    ensures AllReached(AtChecksum, rest) && AllReached(AtLookup, if s.checksum == 0 then h + [s] else h)
  {
    assert s in [s] + rest && Reached(AtChecksum, s);
    forall x | x in rest ensures Reached(AtChecksum, x) { assert x in [s] + rest && Reached(AtChecksum, x); }
  }

  lemma {:induction false} InvVerify(owed: Owing, y: System)
    requires Adds(owed) && Inv(owed, y)
    ensures Inv(owed, Step(y, Verify))
  {
    VerifyFlags(owed, y);
    VerifyAnswers(y, Step(y, Verify));
    VerifyReached(y, Step(y, Verify));
    SameData(y, Step(y, Verify));
  }

  /** A stage decides on the oldest segment of its pool; the stages before it do not notice. */
  lemma {:induction false} StageDecides(owed: Owing, k: Stage, y: System, z: System, s: Segment, rest: seq<Segment>)
    requires Adds(owed) && FlagsMatch(owed, k, y) && Pool(k, y) == [s] + rest && Pool(k, z) == rest
    requires Fifo(k, z.dropper) == Fifo(k, y.dropper) + FlagOf(k, s) && z.dropper.mode == y.dropper.mode && z.left == y.left
    ensures FlagsMatch(owed, k, z)
  {
    Decided(owed, k, Fifo(k, y.dropper), Pool(k, y), s, rest, Ahead(k, y.dropper.mode, y.left));
  }

  lemma {:induction false} HandlePassesOn(owed: Owing, y: System, z: System, s: Segment, r: seq<Segment>, rest: seq<Segment>, f: seq<Segment>)
    requires Adds(owed) && FlagsMatch(owed, AtFsm, y) && s.checksum == 0 && Pool(AtFsm, y) == f + r && r == [s] + rest
    requires Pool(AtFsm, z) == (if LookedUp(s) then f + [s] else f) + rest
    requires z.left == y.left && z.dropper.mode == y.dropper.mode && z.dropper.fsmDrop == y.dropper.fsmDrop
    ensures FlagsMatch(owed, AtFsm, z)
  {
    Passed(owed, AtFsm, y, z, f, s, rest, LookedUp(s));
  }

  /** What the handler makes of the oldest segment of its queue, once the answers are there. */
  lemma {:induction false} HandleFlags(owed: Owing, y: System, z: System, s: Segment, rest: seq<Segment>)
    requires Adds(owed) && FlagsInv(owed, y) && HandlerQueue(y.handler) == [s] + rest && HandlerQueue(z.handler) == rest && s.checksum == 0
    requires z.checker == y.checker && FsmQueue(z.fsm) == if LookedUp(s) then FsmQueue(y.fsm) + [s] else FsmQueue(y.fsm)
    requires z.dropper == y.dropper.(metaDrop := y.dropper.metaDrop + FlagOf(AtLookup, s)) && z.left == y.left
    ensures FlagsInv(owed, z)
  {
    var q := CheckerQueue(y.checker);
    Associate([s], rest, q);
    HandleStages(owed, y, z, s, ([s] + rest) + q, rest + q, FsmQueue(y.fsm));
  }

  lemma {:induction false} HandleStages(owed: Owing, y: System, z: System, s: Segment, r: seq<Segment>, rest: seq<Segment>, f: seq<Segment>)
    requires Adds(owed) && FlagsInv(owed, y) && s.checksum == 0 && r == [s] + rest && Pool(AtChecksum, z) == Pool(AtChecksum, y)
    requires Pool(AtLookup, y) == r && Pool(AtLookup, z) == rest && Pool(AtFsm, y) == f + r
    requires Pool(AtFsm, z) == (if LookedUp(s) then f + [s] else f) + rest
    requires z.dropper == y.dropper.(metaDrop := y.dropper.metaDrop + FlagOf(AtLookup, s)) && z.left == y.left
    ensures FlagsInv(owed, z)
  {
    SameFlags(owed, AtChecksum, y, z);
    StageDecides(owed, AtLookup, y, z, s, rest);
    HandlePassesOn(owed, y, z, s, r, rest, f);
  }

  /** The handler decides on a segment with that segment's own answers: at the port table, or at the session lookup. */
  lemma {:induction false} HandleDecides(h: Handler, s: Segment, rest: seq<Segment>)
    requires h.metaIn == h.portRsp + h.portPending && Held(h.meta) == h.lookupRsp + h.lookupPending
    requires HandlerQueue(h) == [s] + rest && s.checksum == 0
    requires if h.meta.Some? then h.lookupRsp != [] else h.portRsp != [] && !s.portOpen
    requires h.meta.Some? ==> s.portOpen
    ensures var (g, flags, hits) := HandleStep(h);
            && HandlerQueue(g) == rest && flags == FlagOf(AtLookup, s) && hits == (if LookedUp(s) then [s] else [])
            && g.metaIn == g.portRsp + g.portPending && Held(g.meta) == g.lookupRsp + g.lookupPending
  {
    assert HandlerQueue(h)[0] == s && HandlerQueue(h)[1..] == rest;
    if h.meta.Some? {
      assert Held(h.meta)[0] == h.lookupRsp[0];
    } else {
      assert h.metaIn[0] == h.portRsp[0];
      assert h.metaIn[1..] == h.portRsp[1..] + h.portPending;
    }
  }

  /** Otherwise its queue stays: a segment goes to the lookup, or nothing happens. */
  lemma {:induction false} HandleWaits(h: Handler)
    requires h.metaIn == h.portRsp + h.portPending && Held(h.meta) == h.lookupRsp + h.lookupPending
    requires if h.meta.Some? then h.lookupRsp == [] else h.portRsp == [] || h.metaIn[0].portOpen
    ensures var (g, flags, hits) := HandleStep(h);
            && HandlerQueue(g) == HandlerQueue(h) && flags == [] && hits == []
            && g.metaIn == g.portRsp + g.portPending && Held(g.meta) == g.lookupRsp + g.lookupPending
            && (g.meta.Some? && h.meta.None? ==> g.meta.value.portOpen)
  {
    if h.meta.None? && h.portRsp != [] {
      assert h.metaIn[0] == h.portRsp[0];
      assert h.metaIn[1..] == h.portRsp[1..] + h.portPending;
    }
  }

  lemma {:induction false} HandleReached(q: seq<Segment>, s: Segment, rest: seq<Segment>, f: seq<Segment>)
    requires q == [s] + rest && AllReached(AtLookup, q) && AllReached(AtFsm, f)
    ensures Reached(AtLookup, s) && AllReached(AtLookup, rest) && AllReached(AtFsm, if LookedUp(s) then f + [s] else f)
  {
    assert s in q;
    forall x | x in rest ensures Reached(AtLookup, x) { assert x in q && Reached(AtLookup, x); }
  }

  predicate Deciding(h: Handler) {
    if h.meta.Some? then h.lookupRsp != [] else h.portRsp != [] && h.metaIn != [] && !h.metaIn[0].portOpen
  }

  lemma {:induction false} HandleEffect(y: System, z: System)
    requires z == Step(y, Handle)
    ensures var (h, flags, hits) := HandleStep(y.handler);
            && z == y.(handler := h, fsm := z.fsm, dropper := z.dropper) && FsmQueue(z.fsm) == FsmQueue(y.fsm) + hits
            && z.fsm == y.fsm.(metaIn := z.fsm.metaIn) && z.dropper == y.dropper.(metaDrop := y.dropper.metaDrop + flags)
  {}

  lemma {:induction false} HandleWaiting(owed: Owing, y: System, z: System)
    requires Adds(owed) && AnswersMatch(y) && !Deciding(y.handler) && FlagsInv(owed, y) && QueuesInv(y) && z == Step(y, Handle)
    ensures AnswersMatch(z) && FlagsInv(owed, z) && QueuesInv(z)
  {
    HandleWaits(y.handler);
    HandleEffect(y, z);
    HandleNothing(owed, y, z);
  }

  lemma {:induction false} HandleNothing(owed: Owing, y: System, z: System)
    requires Adds(owed) && FlagsInv(owed, y) && CheckerQueue(z.checker) == CheckerQueue(y.checker) && HandlerQueue(z.handler) == HandlerQueue(y.handler)
    requires FsmQueue(z.fsm) == FsmQueue(y.fsm) + [] && z.dropper == y.dropper && z.left == y.left
    ensures FlagsInv(owed, z) && FsmQueue(z.fsm) == FsmQueue(y.fsm)
  {
    SameQueues(owed, AtChecksum, y, z);
    SameQueues(owed, AtLookup, y, z);
    SameQueues(owed, AtFsm, y, z);
  }

  lemma {:induction false} HandleDeciding(owed: Owing, y: System, z: System, s: Segment, rest: seq<Segment>)
    requires Adds(owed) && AnswersMatch(y) && Deciding(y.handler) && FlagsInv(owed, y) && QueuesInv(y) && z == Step(y, Handle)
    requires HandlerQueue(y.handler) == [s] + rest && s.checksum == 0
    requires AllReached(AtLookup, rest) && AllReached(AtFsm, if LookedUp(s) then FsmQueue(y.fsm) + [s] else FsmQueue(y.fsm))
    ensures AnswersMatch(z) && FlagsInv(owed, z) && QueuesInv(z)
  {
    assert HandlerQueue(y.handler)[0] == s;
    HandleDecides(y.handler, s, rest);
    HandleEffect(y, z);
    assert FsmQueue(z.fsm) == if LookedUp(s) then FsmQueue(y.fsm) + [s] else FsmQueue(y.fsm);
    HandleFlags(owed, y, z, s, rest);
  }

  lemma {:induction false} HandleInv(owed: Owing, y: System, z: System)
    requires Adds(owed) && AnswersMatch(y) && FlagsInv(owed, y) && QueuesInv(y) && z == Step(y, Handle)
    ensures AnswersMatch(z) && FlagsInv(owed, z) && QueuesInv(z)
  {
    if Deciding(y.handler) {
      var q := HandlerQueue(y.handler);
      var s, rest := q[0], q[1..];
      assert q == [s] + rest;
      HandleReached(q, s, rest, FsmQueue(y.fsm));
      HandleDeciding(owed, y, z, s, rest);
    } else {
      HandleWaiting(owed, y, z);
    }
  }

  lemma {:induction false} InvHandle(owed: Owing, y: System)
    requires Adds(owed) && Inv(owed, y)
    ensures Inv(owed, Step(y, Handle))
  {
    var z := Step(y, Handle);
    HandleInv(owed, y, z);
    HandleEffect(y, z);
    SameData(y, z);
  }

  /** The stages do not touch the payload. */
  lemma {:induction false} SameData(y: System, z: System)
    requires DataInv(y) && z.arrived == y.arrived && z.done == y.done && z.left == y.left && z.taken == y.taken
    requires z.dropper.mode == y.dropper.mode && z.dropper.dataIn == y.dropper.dataIn && z.dropper.dataOut == y.dropper.dataOut
    ensures DataInv(z)
  {}

  lemma {:induction false} TransitDecides(y: System, s: Segment, rest: seq<Segment>)
    requires AnswersMatch(y) && AllReached(AtFsm, FsmQueue(y.fsm)) && y.fsm.meta == Some(s) && y.fsm.metaIn == rest && y.fsm.rsp != []
    ensures y.fsm.rsp == [s] && y.fsm.pending == [] && FsmQueue(y.fsm) == [s] + rest && Drops(s.meta, s.state, s.rxSar) == FlagOf(AtFsm, s)
    ensures AllReached(AtFsm, rest)
  {
    assert Held(y.fsm.meta)[0] == y.fsm.rsp[0];
    assert |y.fsm.rsp + y.fsm.pending| == 1;
    assert FsmQueue(y.fsm)[0] == s;
    assert s in FsmQueue(y.fsm) && Reached(AtFsm, s);
    forall x | x in rest ensures Reached(AtFsm, x) { assert x in FsmQueue(y.fsm) && Reached(AtFsm, x); }
    if HasPayload(s) { FsmFlag(s); }
  }

  lemma {:induction false} TransitEffect(y: System, z: System)
    requires z == Step(y, Transit)
    ensures var (f, flags) := FsmStep(y.fsm); z == y.(fsm := f, dropper := y.dropper.(fsmDrop := y.dropper.fsmDrop + flags))
  {}

  lemma {:induction false} TransitFlags(owed: Owing, y: System, z: System, s: Segment, rest: seq<Segment>)
    requires Adds(owed) && FlagsInv(owed, y) && FsmQueue(y.fsm) == [s] + rest && FsmQueue(z.fsm) == rest && z.handler == y.handler && z.checker == y.checker
    requires z.dropper == y.dropper.(fsmDrop := y.dropper.fsmDrop + FlagOf(AtFsm, s)) && z.left == y.left
    ensures FlagsInv(owed, z)
  {
    SameFlags(owed, AtChecksum, y, z);
    SameFlags(owed, AtLookup, y, z);
    TransitFlag(owed, y, z, s, rest, HandlerQueue(y.handler) + CheckerQueue(y.checker));
  }

  lemma {:induction false} TransitFlag(owed: Owing, y: System, z: System, s: Segment, rest: seq<Segment>, q: seq<Segment>)
    requires Adds(owed) && FlagsMatch(owed, AtFsm, y) && Pool(AtFsm, y) == ([s] + rest) + q && Pool(AtFsm, z) == rest + q
    requires z.dropper == y.dropper.(fsmDrop := y.dropper.fsmDrop + FlagOf(AtFsm, s)) && z.left == y.left
    ensures FlagsMatch(owed, AtFsm, z)
  {
    assert ([s] + rest) + q == [s] + (rest + q);
    StageDecides(owed, AtFsm, y, z, s, rest + q);
  }

  lemma {:induction false} TransitDone(owed: Owing, y: System, z: System)
    requires Adds(owed) && AnswersMatch(y) && FlagsInv(owed, y) && QueuesInv(y) && y.fsm.meta.Some? && y.fsm.rsp != [] && z == Step(y, Transit)
    ensures AnswersMatch(z) && FlagsInv(owed, z) && QueuesInv(z)
  {
    TransitDecides(y, y.fsm.meta.value, y.fsm.metaIn);
    TransitEffect(y, z);
    assert FsmQueue(z.fsm) == y.fsm.metaIn;
    TransitFlags(owed, y, z, y.fsm.meta.value, y.fsm.metaIn);
  }

  lemma {:induction false} TransitWaits(owed: Owing, y: System, z: System)
    requires Adds(owed) && AnswersMatch(y) && FlagsInv(owed, y) && (y.fsm.meta.None? || y.fsm.rsp == []) && z == Step(y, Transit)
    ensures AnswersMatch(z) && FlagsInv(owed, z) && FsmQueue(z.fsm) == FsmQueue(y.fsm)
  {
    FsmWaits(y.fsm);
    TransitEffect(y, z);
    SameDropper(owed, y, z);
  }

  lemma {:induction false} FsmWaits(f: Fsm)
    requires Held(f.meta) == f.rsp + f.pending && (f.meta.None? || f.rsp == [])
    ensures FsmQueue(FsmStep(f).0) == FsmQueue(f) && FsmStep(f).1 == []
    ensures var g := FsmStep(f).0; Held(g.meta) == g.rsp + g.pending
  {
    if f.meta.None? { assert |f.rsp + f.pending| == 0; }
  }

  lemma {:induction false} SameDropper(owed: Owing, y: System, z: System)
    requires Adds(owed) && FlagsInv(owed, y) && FsmQueue(z.fsm) == FsmQueue(y.fsm) && z.handler == y.handler && z.checker == y.checker
    requires z.dropper == y.dropper.(fsmDrop := y.dropper.fsmDrop + []) && z.left == y.left
    ensures FlagsInv(owed, z)
  {
    assert z.dropper.fsmDrop == y.dropper.fsmDrop;
    SameFlags(owed, AtChecksum, y, z);
    SameFlags(owed, AtLookup, y, z);
    SameFlags(owed, AtFsm, y, z);
  }

  lemma {:induction false} InvTransit(owed: Owing, y: System)
    requires Adds(owed) && Inv(owed, y)
    ensures Inv(owed, Step(y, Transit))
  {
    if y.fsm.meta.Some? && y.fsm.rsp != [] {
      TransitDone(owed, y, Step(y, Transit));
    } else {
      TransitWaits(owed, y, Step(y, Transit));
    }
    SameData(y, Step(y, Transit));
  }

  // ----- the dropper -----

  /** The next flag of a stage that still has to be asked about the current packet is that packet's, if it owes one. */
  lemma {:induction false} FirstFlag(owed: Owing, k: Stage, fifo: seq<bool>, pool: seq<Segment>, left: seq<Segment>)
    requires Adds(owed) && fifo + owed(k, pool) == owed(k, left) && fifo != [] && (left != [] ==> |FlagOf(k, left[0])| == 1)
    ensures left != [] && [fifo[0]] == FlagOf(k, left[0]) && fifo[1..] + owed(k, pool) == owed(k, left[1..])
  {
    assert (fifo + owed(k, pool))[0] == fifo[0];
    if left == [] { OwedNothing(owed, k); } else { OwedHead(owed, k, left); }
    assert (fifo + owed(k, pool))[1..] == fifo[1..] + owed(k, pool);
    assert (FlagOf(k, left[0]) + owed(k, left[1..]))[1..] == owed(k, left[1..]);
  }

  /** A stage that owes the current packet no flag. */
  lemma {:induction false} NoFlag(owed: Owing, k: Stage, left: seq<Segment>)
    requires Adds(owed) && left != [] && FlagOf(k, left[0]) == []
    ensures owed(k, left) == owed(k, left[1..])
  {
    OwedHead(owed, k, left);
  }

  /** The stage the dropper asks in a mode. */
  predicate Asking(k: Stage, m: Mode) {
    match k
    case AtChecksum => m.ReadVerifyChecksum?
    case AtLookup => m.ReadMetaHandler?
    case AtFsm => m.ReadFsmDrop?
  }

  /** The stage asked owes the current packet a flag. */
  lemma {:induction false} OwesFlag(k: Stage, m: Mode, left: seq<Segment>)
    requires Asking(k, m) && ModeMatches(m, left) && PayloadSegments(left) && left != []
    ensures |FlagOf(k, left[0])| == 1
  {
    assert left[0] in left;
  }

  /** A flag that is read is the current packet's own. */
  lemma {:induction false} OwnFlag(owed: Owing, k: Stage, y: System)
    requires Adds(owed) && FlagsMatch(owed, k, y) && ModeMatches(y.dropper.mode, y.left) && PayloadSegments(y.left)
    requires Asking(k, y.dropper.mode) && Fifo(k, y.dropper) != []
    ensures y.left != [] && [Fifo(k, y.dropper)[0]] == FlagOf(k, y.left[0])
    ensures Fifo(k, y.dropper)[1..] + owed(k, Pool(k, y)) == owed(k, y.left[1..])
  {
    if y.left != [] { OwesFlag(k, y.dropper.mode, y.left); }
    FirstFlag(owed, k, Fifo(k, y.dropper), Pool(k, y), y.left);
  }

  /** The flags of a stage the dropper does not ask in this step. */
  lemma {:induction false} OtherFlags(owed: Owing, k: Stage, y: System, z: System)
    requires Adds(owed)
    requires FlagsMatch(owed, k, y) && Pool(k, z) == Pool(k, y) && Fifo(k, z.dropper) == Fifo(k, y.dropper) && z.left == y.left && y.left != []
    requires (Unread(k, z.dropper.mode) <==> Unread(k, y.dropper.mode)) || FlagOf(k, y.left[0]) == []
    ensures FlagsMatch(owed, k, z)
  {
    if FlagOf(k, y.left[0]) == [] { NoFlag(owed, k, y.left); }
  }

  lemma {:induction false} ReadEffect(k: Stage, y: System, z: System)
    requires Asking(k, y.dropper.mode) && Fifo(k, y.dropper) != [] && z == Step(y, DropOrForward)
    ensures z == y.(dropper := DropStep(y.dropper)) && Fifo(k, z.dropper) == Fifo(k, y.dropper)[1..]
    ensures forall j: Stage :: j != k ==> Fifo(j, z.dropper) == Fifo(j, y.dropper)
  {}

  /** The flags of the stage asked, behind the one that was read. */
  lemma {:induction false} AskedFlags(owed: Owing, k: Stage, y: System, z: System)
    requires Adds(owed) && y.left != [] && z.left == y.left && !Unread(k, z.dropper.mode) && Pool(k, z) == Pool(k, y)
    requires Fifo(k, z.dropper) + owed(k, Pool(k, y)) == owed(k, y.left[1..])
    ensures FlagsMatch(owed, k, z)
  {}

  /** Reading a flag: the next mode is right for the packet, and the flags still match. */
  lemma {:induction false} ReadFlags(owed: Owing, k: Stage, y: System, z: System)
    requires Adds(owed) && FlagsInv(owed, y) && ModeMatches(y.dropper.mode, y.left) && PayloadSegments(y.left)
    requires Asking(k, y.dropper.mode) && Fifo(k, y.dropper) != [] && z == Step(y, DropOrForward)
    ensures FlagsInv(owed, z) && ModeMatches(z.dropper.mode, y.left)
    ensures z == y.(dropper := z.dropper) && y.left != [] && !z.dropper.mode.ReadVerifyChecksum?
  {
    OwnFlag(owed, k, y);
    ReadMode(k, y.dropper, y.left);
    ReadEffect(k, y, z);
    ReadStages(owed, k, y, z);
  }

  lemma {:induction false} ReadStages(owed: Owing, k: Stage, y: System, z: System)
    requires Adds(owed)
    requires FlagsInv(owed, y) && Asking(k, y.dropper.mode) && y.left != [] && z == y.(dropper := z.dropper)
    requires Fifo(k, z.dropper) + owed(k, Pool(k, y)) == owed(k, y.left[1..]) && !Unread(k, z.dropper.mode)
    requires forall j: Stage :: j != k ==> Fifo(j, z.dropper) == Fifo(j, y.dropper)
    requires k.AtChecksum? ==> Unread(AtLookup, z.dropper.mode) || FlagOf(AtLookup, y.left[0]) == []
    requires !k.AtFsm? ==> Unread(AtFsm, z.dropper.mode) || FlagOf(AtFsm, y.left[0]) == []
    requires (!k.AtChecksum? ==> !Unread(AtChecksum, z.dropper.mode)) && (k.AtFsm? ==> !Unread(AtLookup, z.dropper.mode))
    ensures FlagsInv(owed, z)
  {
    ReadStage(owed, k, AtChecksum, y, z);
    ReadStage(owed, k, AtLookup, y, z);
    ReadStage(owed, k, AtFsm, y, z);
  }

  lemma {:induction false} ReadStage(owed: Owing, k: Stage, j: Stage, y: System, z: System)
    requires Adds(owed)
    requires FlagsMatch(owed, j, y) && Asking(k, y.dropper.mode) && y.left != [] && z == y.(dropper := z.dropper)
    requires j == k ==> Fifo(k, z.dropper) + owed(k, Pool(k, y)) == owed(k, y.left[1..]) && !Unread(k, z.dropper.mode)
    requires j != k ==> Fifo(j, z.dropper) == Fifo(j, y.dropper)
    requires j != k ==> (Unread(j, z.dropper.mode) <==> Unread(j, y.dropper.mode)) || FlagOf(j, y.left[0]) == []
    ensures FlagsMatch(owed, j, z)
  {
    if j == k { AskedFlags(owed, k, y, z); } else { OtherFlags(owed, j, y, z); }
  }

  lemma {:induction false} ReadMode(k: Stage, d: Dropper, left: seq<Segment>)
    requires Asking(k, d.mode) && Fifo(k, d) != [] && ModeMatches(d.mode, left) && PayloadSegments(left)
    requires left != [] && [Fifo(k, d)[0]] == FlagOf(k, left[0])
    ensures var m := DropStep(d).mode;
            && ModeMatches(m, left) && !Unread(k, m) && !m.ReadVerifyChecksum?
            && (k.AtChecksum? ==> Unread(AtLookup, m) || FlagOf(AtLookup, left[0]) == [])
            && (!k.AtFsm? ==> Unread(AtFsm, m) || FlagOf(AtFsm, left[0]) == [])
            && (!k.AtChecksum? ==> !Unread(AtChecksum, m)) && (k.AtFsm? ==> !Unread(AtLookup, m))
  {
    assert left[0] in left;
    assert Fifo(k, d)[0] == FlagOf(k, left[0])[0];
  }

  lemma {:induction false} ReadKeeps(y: System, z: System)
    requires z == Step(y, DropOrForward) && !y.dropper.mode.Forward? && !y.dropper.mode.Drop?
    ensures z.dropper.dataIn == y.dropper.dataIn && z.dropper.dataOut == y.dropper.dataOut
  {}

  lemma {:induction false} ReadData(y: System, z: System)
    requires DataInv(y) && !y.dropper.mode.Forward? && !y.dropper.mode.Drop? && z == y.(dropper := z.dropper) && y.left != []
    requires z.dropper.dataIn == y.dropper.dataIn && z.dropper.dataOut == y.dropper.dataOut
    requires !z.dropper.mode.ReadVerifyChecksum? && ModeMatches(z.dropper.mode, y.left)
    ensures DataInv(z)
  {
    assert y.left[0].payload[..0] == [] && Passing(y.done) + [] == Passing(y.done);
  }

  lemma {:induction false} InvRead(owed: Owing, k: Stage, y: System)
    requires Adds(owed) && Inv(owed, y) && Asking(k, y.dropper.mode) && Fifo(k, y.dropper) != []
    ensures Inv(owed, Step(y, DropOrForward))
  {
    var z := Step(y, DropOrForward);
    ReadFlags(owed, k, y, z);
    ReadKeeps(y, z);
    ReadData(y, z);
  }

  lemma {:induction false} TakeWord(p: seq<Word>, n: nat, rest: seq<Word>)
    requires n < |p|
    ensures (p[n..] + rest)[0] == p[n] && (p[n..] + rest)[1..] == p[n + 1..] + rest
    ensures p[..n] + [p[n]] == p[..n + 1]
  {}

  lemma {:induction false} PassingSnoc(xs: seq<Segment>, s: Segment)
    ensures Passing(xs + [s]) == Passing(xs) + if Accepted(s) then s.payload else []
  {
    assert (xs + [s])[..|xs|] == xs;
  }

  lemma {:induction false} WordsStart(xs: seq<Segment>)
    requires xs != []
    ensures WordsOf(xs) == xs[0].payload[0..] + WordsOf(xs[1..])
  {
    assert xs[0].payload[0..] == xs[0].payload;
  }

  /** The step that takes word w of the current packet. */
  lemma {:induction false} WordTaken(y: System, z: System, w: Word, rest: seq<Word>)
    requires (y.dropper.mode.Forward? || y.dropper.mode.Drop?) && y.left != [] && z == Step(y, DropOrForward)
    requires y.dropper.dataIn != [] && y.dropper.dataIn[0] == w && y.dropper.dataIn[1..] == rest
    ensures z.dropper == y.dropper.(dataIn := rest, mode := if w.last then ReadVerifyChecksum else y.dropper.mode,
                                    dataOut := if y.dropper.mode.Forward? then y.dropper.dataOut + [w] else y.dropper.dataOut)
    ensures z == if w.last then y.(dropper := z.dropper, done := y.done + [y.left[0]], left := y.left[1..], taken := 0)
                 else y.(dropper := z.dropper, taken := y.taken + 1)
  {}

  lemma {:induction false} WordAtHand(left: seq<Segment>, n: nat, words: seq<Word>)
    requires InFifo(left, n, words) && PayloadSegments(left) && left != []
    ensures var p := left[0].payload;
            && words != [] && words[0] == p[n] && words[1..] == p[n + 1..] + WordsOf(left[1..]) && (p[n].last <==> n == |p| - 1)
  {
    assert left[0] in left;
    TakeWord(left[0].payload, n, WordsOf(left[1..]));
    assert LastAt(left[0].payload, n);
  }

  /** One word of the current packet that is not its last. */
  lemma {:induction false} MiddleWord(y: System, z: System, p: seq<Word>)
    requires DataMatches(y) && (y.dropper.mode.Forward? || y.dropper.mode.Drop?) && y.left != [] && p == y.left[0].payload
    requires y.taken + 1 < |p|
    requires z.left == y.left && z.done == y.done && z.taken == y.taken + 1 && z.dropper.mode == y.dropper.mode
    requires z.dropper.dataIn == p[y.taken + 1..] + WordsOf(y.left[1..])
    requires z.dropper.dataOut == if y.dropper.mode.Forward? then y.dropper.dataOut + [p[y.taken]] else y.dropper.dataOut
    ensures DataMatches(z)
  {
    ForwardedMore(Passing(y.done), p, y.taken);
    MiddleOut(y, z, p);
  }

  lemma {:induction false} ForwardedMore(a: seq<Word>, p: seq<Word>, n: nat)
    requires n < |p|
    ensures (a + p[..n]) + [p[n]] == a + p[..n + 1]
  {
    Associate(a, p[..n], [p[n]]);
    assert p[..n] + [p[n]] == p[..n + 1];
  }

  lemma {:induction false} MiddleOut(y: System, z: System, p: seq<Word>)
    requires DataMatches(y) && y.left != [] && p == y.left[0].payload && y.taken + 1 < |p|
    requires z.left == y.left && z.done == y.done && z.taken == y.taken + 1 && z.dropper.mode == y.dropper.mode
    requires (Passing(y.done) + p[..y.taken]) + [p[y.taken]] == Passing(y.done) + p[..y.taken + 1]
    requires z.dropper.dataOut == if y.dropper.mode.Forward? then y.dropper.dataOut + [p[y.taken]] else y.dropper.dataOut
    ensures z.dropper.dataOut == Passing(z.done) + if z.dropper.mode.Forward? then p[..z.taken] else []
  {}

  /** The last word of the current packet. */
  lemma {:induction false} LastWord(y: System, z: System, p: seq<Word>)
    requires DataMatches(y) && ModeMatches(y.dropper.mode, y.left) && (y.dropper.mode.Forward? || y.dropper.mode.Drop?)
    requires y.left != [] && p == y.left[0].payload && y.taken + 1 == |p| && z.done == y.done + [y.left[0]]
    requires z.dropper.dataOut == if y.dropper.mode.Forward? then y.dropper.dataOut + [p[y.taken]] else y.dropper.dataOut
    ensures z.dropper.dataOut == Passing(z.done)
  {
    LastForwarded(y.done, y.left[0], y.taken, y.dropper.mode.Forward?);
    assert Passing(y.done) + [] == Passing(y.done);
  }

  lemma {:induction false} LastForwarded(done: seq<Segment>, s: Segment, n: nat, forward: bool)
    requires n + 1 == |s.payload| && (Accepted(s) <==> forward)
    ensures Passing(done + [s]) == if forward then (Passing(done) + s.payload[..n]) + [s.payload[n]] else Passing(done) + []
  {
    PassingSnoc(done, s);
    assert s.payload == s.payload[..n] + [s.payload[n]];
    Associate(Passing(done), s.payload[..n], [s.payload[n]]);
  }

  lemma {:induction false} BetweenPackets(z: System)
    requires z.dropper.mode.ReadVerifyChecksum? && z.dropper.dataIn == WordsOf(z.left) && z.dropper.dataOut == Passing(z.done)
    requires z.taken == 0 && PayloadSegments(z.left)
    ensures DataMatches(z)
  {
    if z.left != [] {
      WordsStart(z.left);
      assert z.left[0] in z.left;
    }
  }

  lemma {:induction false} WordFlags(owed: Owing, y: System, z: System)
    requires Adds(owed) && FlagsInv(owed, y) && (y.dropper.mode.Forward? || y.dropper.mode.Drop?) && y.left != []
    requires z.checker == y.checker && z.handler == y.handler && z.fsm == y.fsm
    requires forall k: Stage :: Fifo(k, z.dropper) == Fifo(k, y.dropper)
    requires if z.dropper.mode.ReadVerifyChecksum? then z.left == y.left[1..] else z.left == y.left && z.dropper.mode == y.dropper.mode
    ensures FlagsInv(owed, z)
  {
    WordStage(owed, AtChecksum, y, z);
    WordStage(owed, AtLookup, y, z);
    WordStage(owed, AtFsm, y, z);
  }

  lemma {:induction false} WordStage(owed: Owing, k: Stage, y: System, z: System)
    requires Adds(owed) && FlagsMatch(owed, k, y) && (y.dropper.mode.Forward? || y.dropper.mode.Drop?) && y.left != []
    requires Pool(k, z) == Pool(k, y) && Fifo(k, z.dropper) == Fifo(k, y.dropper)
    requires if z.dropper.mode.ReadVerifyChecksum? then z.left == y.left[1..] else z.left == y.left && z.dropper.mode == y.dropper.mode
    ensures FlagsMatch(owed, k, z)
  {}

  lemma {:induction false} DataWord(y: System, z: System)
    requires DataInv(y) && (y.dropper.mode.Forward? || y.dropper.mode.Drop?) && y.dropper.dataIn != [] && z == Step(y, DropOrForward)
    ensures DataInv(z) && y.left != []
    ensures if z.dropper.mode.ReadVerifyChecksum? then z.left == y.left[1..] else z.left == y.left && z.dropper.mode == y.dropper.mode
  {
    var p := y.left[0].payload;
    WordAtHand(y.left, y.taken, y.dropper.dataIn);
    WordTaken(y, z, p[y.taken], p[y.taken + 1..] + WordsOf(y.left[1..]));
    if y.taken + 1 < |p| {
      MiddleWord(y, z, p);
    } else {
      assert p[y.taken + 1..] + WordsOf(y.left[1..]) == WordsOf(y.left[1..]);
      LastWord(y, z, p);
      LastHistory(y, z);
      BetweenPackets(z);
    }
  }

  lemma {:induction false} WordEffect(y: System, z: System)
    requires (y.dropper.mode.Forward? || y.dropper.mode.Drop?) && z == Step(y, DropOrForward)
    ensures z.checker == y.checker && z.handler == y.handler && z.fsm == y.fsm
    ensures forall k: Stage :: Fifo(k, z.dropper) == Fifo(k, y.dropper)
  {}

  lemma {:induction false} InvWord(owed: Owing, y: System)
    requires Adds(owed) && Inv(owed, y) && (y.dropper.mode.Forward? || y.dropper.mode.Drop?) && y.dropper.dataIn != []
    ensures Inv(owed, Step(y, DropOrForward))
  {
    var z := Step(y, DropOrForward);
    DataWord(y, z);
    WordEffect(y, z);
    WordFlags(owed, y, z);
  }

  lemma {:induction false} LastHistory(y: System, z: System)
    requires PayloadSegments(y.left) && y.left != [] && z.left == y.left[1..] && z.done == y.done + [y.left[0]]
    ensures PayloadSegments(z.left) && z.done + z.left == y.done + y.left
  {
    forall s | s in z.left ensures HasPayload(s) && Wellformed(s) { assert s in y.left; }
    assert y.left == [y.left[0]] + y.left[1..];
    assert (y.done + [y.left[0]]) + y.left[1..] == y.done + ([y.left[0]] + y.left[1..]);
  }

  /** Whether the FIFO the dropper waits for has something. */
  predicate CanStep(d: Dropper) {
    match d.mode
    case ReadVerifyChecksum => d.verifyDrop != []
    case ReadMetaHandler => d.metaDrop != []
    case ReadFsmDrop => d.fsmDrop != []
    case _ => d.dataIn != []
  }

  lemma {:induction false} DropperWaits(y: System)
    requires !CanStep(y.dropper)
    ensures Step(y, DropOrForward) == y
  {
    assert DropStep(y.dropper) == y.dropper;
    assert y.(dropper := y.dropper) == y;
  }

  lemma {:induction false} InvDropper(owed: Owing, y: System)
    requires Adds(owed) && Inv(owed, y)
    ensures Inv(owed, Step(y, DropOrForward))
  {
    if !CanStep(y.dropper) {
      DropperWaits(y);
      assert Inv(owed, Step(y, DropOrForward));
    } else if y.dropper.mode.ReadVerifyChecksum? {
      InvRead(owed, AtChecksum, y);
    } else if y.dropper.mode.ReadMetaHandler? {
      InvRead(owed, AtLookup, y);
    } else if y.dropper.mode.ReadFsmDrop? {
      InvRead(owed, AtFsm, y);
    } else {
      InvWord(owed, y);
    }
  }

  // ----- whole runs -----

  lemma {:induction false} InvStep(owed: Owing, y: System, e: Event)
    requires Adds(owed) && Inv(owed, y) && InputOk(e)
    ensures Inv(owed, Step(y, e))
  {
    if e.Arrive? {
      InvArrive(owed, y, e.s);
    } else if e.Verify? {
      InvVerify(owed, y);
    } else if e.Handle? {
      InvHandle(owed, y);
    } else if e.Transit? {
      InvTransit(owed, y);
    } else if e.DropOrForward? {
      InvDropper(owed, y);
    } else {
      InvAnswer(owed, y, e);
    }
  }

  lemma {:induction false} InvRun(owed: Owing, y: System, events: seq<Event>)
    requires Adds(owed) && Inv(owed, y) && InputsOk(events)
    ensures Inv(owed, Run(y, events))
    decreases |events|
  {
    if events != [] {
      assert InputOk(events[0]);
      InvStep(owed, y, events[0]);
      forall i | 0 <= i < |events[1..]| ensures InputOk(events[1..][i]) { assert events[1..][i] == events[i + 1]; }
      InvRun(owed, Step(y, events[0]), events[1..]);
    }
  }

  // ----- what the application gets -----

  lemma {:induction false} InvInitially(owed: Owing)
    requires Adds(owed)
    ensures Inv(owed, INITIAL)
  {
    OwedNothing(owed, AtChecksum);
    OwedNothing(owed, AtLookup);
    OwedNothing(owed, AtFsm);
  }

  /** Nothing is queued or held in any stage. */
  predicate StagesEmpty(y: System) {
    CheckerQueue(y.checker) == [] && HandlerQueue(y.handler) == [] && FsmQueue(y.fsm) == []
    && y.dropper.verifyDrop == [] && y.dropper.metaDrop == [] && y.dropper.fsmDrop == []
  }

  lemma {:induction false} NothingLeft(owed: Owing, y: System)
    requires Adds(owed) && Inv(owed, y) && StagesEmpty(y) && !CanStep(y.dropper)
    ensures y.left == []
  {
    if y.left != [] {
      assert y.left[0] in y.left;
      Waiting(owed, y);
    }
  }

  /** A dropper that cannot go on waits for a flag that some stage still owes. */
  lemma {:induction false} Waiting(owed: Owing, y: System)
    requires Adds(owed) && FlagsInv(owed, y) && DataInv(y) && !CanStep(y.dropper) && y.left != []
    ensures !StagesEmpty(y)
  {
    var m := y.dropper.mode;
    assert y.left[0] in y.left;
    if m.ReadVerifyChecksum? {
      Owed(owed, AtChecksum, y);
    } else if m.ReadMetaHandler? {
      Owed(owed, AtLookup, y);
    } else if m.ReadFsmDrop? {
      Owed(owed, AtFsm, y);
    }
  }

  lemma {:induction false} Owed(owed: Owing, k: Stage, y: System)
    requires Adds(owed) && FlagsMatch(owed, k, y) && ModeMatches(y.dropper.mode, y.left) && PayloadSegments(y.left) && y.left != []
    requires Asking(k, y.dropper.mode) && Fifo(k, y.dropper) == []
    ensures Pool(k, y) != []
  {
    OwesFlag(k, y.dropper.mode, y.left);
    OwedHead(owed, k, y.left);
    OwedNothing(owed, k);
  }

  lemma {:induction false} RunMatches(owed: Owing, events: seq<Event>, y: System)
    requires Adds(owed) && InputsOk(events) && y == Run(INITIAL, events)
    ensures DataInv(y) && (StagesEmpty(y) && !CanStep(y.dropper) ==> y.left == [])
  {
    InvInitially(owed);
    InvRun(owed, INITIAL, events);
    if StagesEmpty(y) && !CanStep(y.dropper) { NothingLeft(owed, y); }
  }

  /** Every payload packet is judged by the decisions on its own segment: the dropper has forwarded the payload of exactly the accepted
      segments, in order of arrival and word for word, among those it is done with, and the first words of the packet at hand if that
      one is accepted. */
  predicate JudgedByOwn(y: System) {
    && WithPayload(y.arrived) == y.done + y.left
    && (y.dropper.mode.Forward? ==> y.left != [] && Accepted(y.left[0]) && y.taken < |y.left[0].payload|)
    && (y.dropper.mode.Drop? ==> y.left != [] && !Accepted(y.left[0]))
    && y.dropper.dataOut == Passing(y.done) + if y.dropper.mode.Forward? then y.left[0].payload[..y.taken] else []
  }

  /** Once the stages are empty and the dropper rests between packets, every packet is done: no flag and no word is missing or left
      over. */
  predicate AllDone(y: System) {
    StagesEmpty(y) && !CanStep(y.dropper) ==>
      y.left == [] && y.dropper.dataIn == [] && y.dropper.dataOut == Passing(WithPayload(y.arrived))
  }

  lemma {:induction false} ForwardedExactly(events: seq<Event>)
    requires InputsOk(events)
    ensures JudgedByOwn(Run(INITIAL, events))
  {
    FlagsAdd();
    RunMatches(Flags, events, Run(INITIAL, events));
  }

  lemma {:induction false} NothingStuck(events: seq<Event>)
    requires InputsOk(events)
    ensures AllDone(Run(INITIAL, events))
  {
    var y := Run(INITIAL, events);
    FlagsAdd();
    RunMatches(Flags, events, y);
    if y.left == [] { assert y.done + [] == y.done; }
  }

  // ----- the condition on the payload -----

  /** A segment without ACK, or a SYN or RST, gets no flag from the state machine whatever it decides. */
  lemma {:induction false} FlagExactly(s: Segment)
    requires HasPayload(s)
    ensures |Drops(s.meta, s.state, s.rxSar)| == (if IsAck(s.meta) || IsFinAck(s.meta) then 1 else 0)
  {}

  lemma {:induction false} RunCat(y: System, a: seq<Event>, b: seq<Event>)
    ensures Run(y, a + b) == Run(Run(y, a), b)
  {
    RunOfCat(Step, y, a, b);
  }

  lemma {:induction false} RunOne(y: System, e: Event)
    ensures Run(y, [e]) == Step(y, e)
  {
    RunOfOne(Step, y, e);
  }

  lemma {:induction false} RunTwo(y: System, e: Event, f: Event)
    ensures Run(y, [e, f]) == Step(Step(y, e), f)
  {
    assert [e, f] == [e] + [f];
    RunCat(y, [e], [f]);
    RunOne(y, e);
    RunOne(Step(y, e), f);
  }

  /** A segment goes through all stages on its own. */
  function Checks(s: Segment): seq<Event> { [Arrive(s)] + [ChecksumDone] + [Verify, Verify] }
  function Lookups(): seq<Event> { [PortDone, Handle] + [LookupDone, Handle] }
  function Decides(): seq<Event> { [Transit] + [TablesDone, Transit] }
  function Journey(s: Segment): seq<Event> { Checks(s) + Lookups() + Decides() }

  predicate Quiet(y: System) {
    y.checker == Checker(None, [], [], []) && y.handler == Handler(None, [], [], [], [], []) && y.fsm == Fsm(None, [], [], [])
  }

  const NO_HANDLER: Handler := Handler(None, [], [], [], [], [])
  const NO_FSM: Fsm := Fsm(None, [], [], [])

  lemma {:induction false} ThroughChecks(y: System, s: Segment, valid: seq<Segment>)
    requires Quiet(y) && valid == if s.checksum == 0 then [s] else []
    ensures Run(y, Checks(s)) == y.(handler := Handler(None, valid, [], valid, [], []), arrived := y.arrived + [s], left := y.left + Arriving(s),
                                    dropper := y.dropper.(verifyDrop := y.dropper.verifyDrop + FlagOf(AtChecksum, s),
                                                          dataIn := y.dropper.dataIn + s.payload))
  {
    RunCat(y, [Arrive(s)] + [ChecksumDone], [Verify, Verify]);
    RunCat(y, [Arrive(s)], [ChecksumDone]);
    RunOne(y, Arrive(s));
    var a := Step(y, Arrive(s));
    RunOne(a, ChecksumDone);
    var b := Step(a, ChecksumDone);
    RunTwo(b, Verify, Verify);
    assert b.checker == Checker(None, [s], [s], []);
    VerifiesAlone(b, s, valid);
  }

  lemma {:induction false} VerifiesAlone(b: System, s: Segment, valid: seq<Segment>)
    requires b.checker == Checker(None, [s], [s], []) && b.handler == NO_HANDLER && valid == if s.checksum == 0 then [s] else []
    ensures Step(Step(b, Verify), Verify)
            == b.(checker := Checker(None, [], [], []), handler := Handler(None, valid, [], valid, [], []),
                  dropper := b.dropper.(verifyDrop := b.dropper.verifyDrop + FlagOf(AtChecksum, s)))
  {
    var c := Step(b, Verify);
    assert b.handler.metaIn + [] == [] && b.dropper.verifyDrop + [] == b.dropper.verifyDrop;
    assert c == b.(checker := Checker(Some(s), [], [s], []));
    assert [] + valid == valid;
  }

  lemma {:induction false} ThroughLookups(y: System, s: Segment)
    requires y.handler == Handler(None, [s], [], [s], [], []) && y.fsm == NO_FSM && s.checksum == 0
    ensures Run(y, Lookups()) == y.(handler := NO_HANDLER, fsm := if LookedUp(s) then Fsm(None, [s], [], []) else NO_FSM,
                                    dropper := y.dropper.(metaDrop := y.dropper.metaDrop + FlagOf(AtLookup, s)))
  {
    RunCat(y, [PortDone, Handle], [LookupDone, Handle]);
    RunTwo(y, PortDone, Handle);
    var a := Step(y, PortDone);
    assert a == y.(handler := Handler(None, [s], [s], [], [], []));
    var b := Step(a, Handle);
    RunTwo(b, LookupDone, Handle);
    if s.portOpen { FoundAlone(a, b, s); } else { RefusedAlone(a, b, s); }
  }

  lemma {:induction false} NothingAdded(y: System)
    ensures y.(fsm := y.fsm.(metaIn := y.fsm.metaIn + []), dropper := y.dropper.(metaDrop := y.dropper.metaDrop + [])) == y
  {}

  lemma {:induction false} RefusedAlone(a: System, b: System, s: Segment)
    requires a.handler == Handler(None, [s], [s], [], [], []) && a.fsm == NO_FSM && s.checksum == 0 && !s.portOpen && b == Step(a, Handle)
    ensures Step(Step(b, LookupDone), Handle)
            == a.(handler := NO_HANDLER, dropper := a.dropper.(metaDrop := a.dropper.metaDrop + FlagOf(AtLookup, s)))
  {
    assert b == a.(handler := NO_HANDLER, dropper := a.dropper.(metaDrop := a.dropper.metaDrop + FlagOf(AtLookup, s)));
    NothingAdded(b);
  }

  lemma {:induction false} FoundAlone(a: System, b: System, s: Segment)
    requires a.handler == Handler(None, [s], [s], [], [], []) && a.fsm == NO_FSM && s.checksum == 0 && s.portOpen && b == Step(a, Handle)
    ensures Step(Step(b, LookupDone), Handle)
            == a.(handler := NO_HANDLER, fsm := if s.hit then Fsm(None, [s], [], []) else NO_FSM,
                  dropper := a.dropper.(metaDrop := a.dropper.metaDrop + FlagOf(AtLookup, s)))
  {
    NothingAdded(a);
    assert b == a.(handler := Handler(Some(s), [], [], [], [], [s]));
    assert Step(b, LookupDone) == a.(handler := Handler(Some(s), [], [], [], [s], []));
  }

  lemma {:induction false} ThroughDecides(y: System, s: Segment)
    requires y.fsm == Fsm(None, [s], [], [])
    ensures Run(y, Decides()) == y.(fsm := NO_FSM, dropper := y.dropper.(fsmDrop := y.dropper.fsmDrop + Drops(s.meta, s.state, s.rxSar)))
  {
    RunCat(y, [Transit], [TablesDone, Transit]);
    RunOne(y, Transit);
    var a := Step(y, Transit);
    assert a == y.(fsm := Fsm(Some(s), [], [], [s]));
    RunTwo(a, TablesDone, Transit);
    assert Step(a, TablesDone).fsm == Fsm(Some(s), [], [s], []);
  }

  /** Stages without a segment stay as they are. */
  lemma {:induction false} NoLookups(y: System)
    requires y.handler == NO_HANDLER
    ensures Run(y, Lookups()) == y
  {
    RunCat(y, [PortDone, Handle], [LookupDone, Handle]);
    RunTwo(y, PortDone, Handle);
    NothingAdded(y);
    RunTwo(y, LookupDone, Handle);
  }

  lemma {:induction false} NoDecides(y: System)
    requires y.fsm == NO_FSM
    ensures Run(y, Decides()) == y
  {
    RunCat(y, [Transit], [TablesDone, Transit]);
    RunOne(y, Transit);
    assert y.dropper.fsmDrop + [] == y.dropper.fsmDrop;
    RunTwo(y, TablesDone, Transit);
  }

  /** The flag the state machine sends for a segment, if it gets it. */
  function Sent(s: Segment): seq<bool> { if LookedUp(s) then Drops(s.meta, s.state, s.rxSar) else [] }

  /** A segment that goes through all stages alone, whatever it is and however it is decided. */
  lemma {:induction false} Through(y: System, s: Segment)
    requires Quiet(y)
    ensures Run(y, Journey(s)) == y.(arrived := y.arrived + [s], left := y.left + Arriving(s),
              dropper := y.dropper.(verifyDrop := y.dropper.verifyDrop + FlagOf(AtChecksum, s),
                                    metaDrop := y.dropper.metaDrop + FlagOf(AtLookup, s),
                                    fsmDrop := y.dropper.fsmDrop + Sent(s), dataIn := y.dropper.dataIn + s.payload))
  {
    RunCat(y, Checks(s) + Lookups(), Decides());
    RunCat(y, Checks(s), Lookups());
    ThroughChecks(y, s, if s.checksum == 0 then [s] else []);
    var a := Run(y, Checks(s));
    if s.checksum == 0 { ThroughLookups(a, s); } else { NoLookups(a); }
    var b := Run(a, Lookups());
    if LookedUp(s) { ThroughDecides(b, s); } else { NoDecides(b); }
  }

  /** Two segments alone, one after the other, and then the dropper. */
  function Pair(first: Segment, next: Segment): seq<Event> { Journey(first) + Journey(next) }
  function Ask(): seq<Event> { [DropOrForward, DropOrForward] + [DropOrForward] }

  /** The three flags of an accepted segment let the dropper forward what comes next. */
  lemma {:induction false} AskedAll(b: System)
    requires b.dropper.mode.ReadVerifyChecksum? && b.dropper.verifyDrop != [] && !b.dropper.verifyDrop[0]
    requires b.dropper.metaDrop != [] && !b.dropper.metaDrop[0] && b.dropper.fsmDrop != [] && !b.dropper.fsmDrop[0]
    ensures Run(b, Ask()) == b.(dropper := b.dropper.(verifyDrop := b.dropper.verifyDrop[1..], metaDrop := b.dropper.metaDrop[1..],
                                                      fsmDrop := b.dropper.fsmDrop[1..], mode := Forward))
  {
    RunCat(b, [DropOrForward, DropOrForward], [DropOrForward]);
    RunTwo(b, DropOrForward, DropOrForward);
    var c := Step(b, DropOrForward);
    assert c == b.(dropper := b.dropper.(verifyDrop := b.dropper.verifyDrop[1..], mode := ReadMetaHandler));
    var d := Step(c, DropOrForward);
    assert d == c.(dropper := c.dropper.(metaDrop := c.dropper.metaDrop[1..], mode := ReadFsmDrop));
    RunOne(d, DropOrForward);
  }

  lemma {:induction false} AcceptedFlags(s: Segment)
    requires HasPayload(s) && Accepted(s)
    ensures FlagOf(AtChecksum, s) == [false] && FlagOf(AtLookup, s) == [false] && Sent(s) == [false] && Arriving(s) == [s]
  {}

  /** Why the condition is needed, for every segment that breaks it: payload that reaches the state machine on another segment is not
      accepted and gets no flag, so the dropper gives its packet the flag of the next segment, and forwards it when that one is
      accepted. */
  lemma {:induction false} Misjudged(other: Segment, next: Segment)
    requires HasPayload(other) && LookedUp(other) && !IsAck(other.meta) && !IsFinAck(other.meta)
    requires HasPayload(next) && Accepted(next)
    ensures var y := Run(INITIAL, Pair(other, next) + Ask());
            y.left == [other, next] && !Accepted(other) && y.dropper.mode.Forward?
  {
    RunCat(INITIAL, Pair(other, next), Ask());
    RunCat(INITIAL, Journey(other), Journey(next));
    Through(INITIAL, other);
    FlagExactly(other);
    var a := Run(INITIAL, Journey(other));
    Through(a, next);
    AcceptedFlags(next);
    AskedAll(Run(a, Journey(next)));
  }

  /** The other way to break it, whatever the stages make of the segment: words without payload get no flag at all, so the first of
      them goes out in place of the payload of the next segment that is accepted. When it is the only one, everything comes to rest
      with that payload still in the FIFO. */
  lemma {:induction false} Strayed(stray: Segment, next: Segment)
    requires !HasPayload(stray) && stray.payload != [] && LastOnly(stray.payload) && HasPayload(next) && Accepted(next)
    ensures var y := Run(INITIAL, Pair(stray, next) + Ask() + [DropOrForward]);
            && y.arrived == [stray, next] && y.dropper.dataOut == [stray.payload[0]]
            && y.dropper.dataIn == stray.payload[1..] + next.payload && StagesEmpty(y)
            && (if |stray.payload| == 1 then y.done == [next] && y.left == [] && y.dropper.mode.ReadVerifyChecksum?
                else y.done == [] && y.left == [next] && y.taken == 1 && y.dropper.mode.Forward?)
  {
    RunCat(INITIAL, Pair(stray, next) + Ask(), [DropOrForward]);
    StrayAsked(stray, next);
    var e := Run(INITIAL, Pair(stray, next) + Ask());
    RunOne(e, DropOrForward);
    StrayOut(e, stray.payload, next);
  }

  lemma {:induction false} StrayAsked(stray: Segment, next: Segment)
    requires !HasPayload(stray) && HasPayload(next) && Accepted(next)
    ensures Run(INITIAL, Pair(stray, next) + Ask())
            == INITIAL.(arrived := [stray, next], left := [next],
                        dropper := Dropper(Forward, [], [], [], stray.payload + next.payload, []))
  {
    RunCat(INITIAL, Pair(stray, next), Ask());
    RunCat(INITIAL, Journey(stray), Journey(next));
    Through(INITIAL, stray);
    var a := Run(INITIAL, Journey(stray));
    StrayAlone(a, stray);
    Through(a, next);
    AcceptedFlags(next);
    AskedAll(Run(a, Journey(next)));
  }

  lemma {:induction false} StrayAlone(a: System, stray: Segment)
    requires !HasPayload(stray)
    requires a == INITIAL.(arrived := [] + [stray], left := [] + Arriving(stray),
                           dropper := Dropper(ReadVerifyChecksum, [] + FlagOf(AtChecksum, stray), [] + FlagOf(AtLookup, stray), [] + Sent(stray),
                                              [] + stray.payload, []))
    ensures a == INITIAL.(arrived := [stray], dropper := Dropper(ReadVerifyChecksum, [], [], [], stray.payload, []))
  {
    assert [] + stray.payload == stray.payload;
  }

  lemma {:induction false} StrayOut(e: System, words: seq<Word>, next: Segment)
    requires words != [] && LastOnly(words) && Quiet(e) && e.left == [next] && e.done == [] && e.taken == 0
    requires e.dropper == Dropper(Forward, [], [], [], words + next.payload, [])
    ensures var y := Step(e, DropOrForward);
            && y.arrived == e.arrived && y.dropper.dataOut == [words[0]] && y.dropper.dataIn == words[1..] + next.payload && StagesEmpty(y)
            && (if |words| == 1 then y.done == [next] && y.left == [] && y.dropper.mode.ReadVerifyChecksum?
                else y.done == [] && y.left == [next] && y.taken == 1 && y.dropper.mode.Forward?)
  {
    assert LastAt(words, 0);
    WordTaken(e, Step(e, DropOrForward), words[0], words[1..] + next.payload);
  }

  // ----- the condition is exact -----

  /** Every segment that arrives is well-formed, or is s. */
  predicate ArrivalsOk(events: seq<Event>, s: Segment) {
    forall i {:trigger events[i]} :: 0 <= i < |events| ==> events[i].Arrive? ==> Wellformed(events[i].s) || events[i].s == s
  }

  const BLANK_WORD: Word := Word(Blank(LANES), true)
  const OTHER_WORD: Word := Word([Lane(1, true)] + Blank(LANES - 1), true)

  /** An accepted segment with one word of payload that is not w. */
  function Next(w: Word): Segment {
    Segment(FourTuple(0, 0, 0, 0), SegmentMeta(0, 0, 0, 0, 0, 1, true, false, false, false),
            [if w == BLANK_WORD then OTHER_WORD else BLANK_WORD], 0, true, true, Established, RxSarEntry(0, 0, 0))
  }

  lemma {:induction false} NextAccepted(w: Word)
    ensures HasPayload(Next(w)) && Accepted(Next(w)) && Wellformed(Next(w)) && |Next(w).payload| == 1 && Next(w).payload[0] != w
  {
    LastOnlyOne(Next(w).payload[0]);
    assert BLANK_WORD.lanes[0] != OTHER_WORD.lanes[0];
  }

  lemma {:induction false} JourneyArrives(s: Segment, e: Event)
    requires e in Journey(s) && e.Arrive?
    ensures e.s == s
  {}

  lemma {:induction false} PairArrives(s: Segment, next: Segment, last: seq<Event>)
    requires Wellformed(next) && forall e :: e in last ==> e == DropOrForward
    ensures ArrivalsOk(Pair(s, next) + last, s)
  {
    var events := Pair(s, next) + last;
    forall i | 0 <= i < |events| && events[i].Arrive? ensures Wellformed(events[i].s) || events[i].s == s {
      var e := events[i];
      assert e in Journey(s) || e in Journey(next) || e in last;
      if e in Journey(s) { JourneyArrives(s, e); } else if e in Journey(next) { JourneyArrives(next, e); }
    }
  }

  /** A segment that is not matched, and a run it spoils. */
  lemma {:induction false} SpoiledRun(s: Segment) returns (events: seq<Event>)
    requires Shaped(s) && !Matched(s)
    ensures ArrivalsOk(events, s) && !JudgedByOwn(Run(INITIAL, events))
  {
    if HasPayload(s) {
      var next := Next(BLANK_WORD);
      NextAccepted(BLANK_WORD);
      events := Pair(s, next) + Ask();
      PairArrives(s, next, Ask());
      Misjudged(s, next);
    } else {
      var w := s.payload[0];
      var next := Next(w);
      NextAccepted(w);
      events := Pair(s, next) + Ask() + [DropOrForward];
      assert events == Pair(s, next) + (Ask() + [DropOrForward]);
      PairArrives(s, next, Ask() + [DropOrForward]);
      Strayed(s, next);
      StrayDiffers(Run(INITIAL, events), w, next);
    }
  }

  lemma {:induction false} StrayDiffers(y: System, w: Word, next: Segment)
    requires y.dropper.dataOut == [w] && |next.payload| == 1 && next.payload[0] != w && Accepted(next)
    requires (y.done == [next] && y.left == [] && !y.dropper.mode.Forward?) || (y.left == [next] && y.taken == 1 && y.dropper.mode.Forward?)
    ensures !JudgedByOwn(y)
  {
    if !y.dropper.mode.Forward? {
      PassingOne(next);
      OtherWordOut(y, w, next.payload);
    }
  }

  lemma {:induction false} OtherWordOut(y: System, w: Word, p: seq<Word>)
    requires y.dropper.dataOut == [w] && Passing(y.done) == p && |p| == 1 && p[0] != w && !y.dropper.mode.Forward?
    ensures !JudgedByOwn(y)
  {
    assert p + [] == p;
  }

  lemma {:induction false} PassingOne(s: Segment)
    requires Accepted(s)
    ensures Passing([s]) == s.payload
  {
    assert [s][..0] == [] && [] + s.payload == s.payload;
  }

  /** The condition is exact, segment by segment: among well-formed ones a segment of any shape the wire can bring leaves all runs as
      they should be if and only if it is matched. */
  lemma {:induction false} ConditionExactly(s: Segment)
    requires Shaped(s)
    ensures Matched(s) <==> forall events {:trigger ArrivalsOk(events, s)} ::
                              ArrivalsOk(events, s) ==> JudgedByOwn(Run(INITIAL, events)) && AllDone(Run(INITIAL, events))
  {
    if Matched(s) {
      forall events | ArrivalsOk(events, s) ensures JudgedByOwn(Run(INITIAL, events)) && AllDone(Run(INITIAL, events)) {
        assert InputsOk(events);
        ForwardedExactly(events);
        NothingStuck(events);
      }
    } else {
      var events := SpoiledRun(s);
    }
  }

  // ----- the processes -----

  class RxEngVerifyCheckSum {
    var meta: Option<Segment>
    var metaIn: seq<Segment>
    var rtlChecksum: seq<Segment>
    var metaOut: seq<Segment>
    var portTableOut: seq<Segment>
    var dropPayload: seq<bool>

    function View(pending: seq<Segment>): Checker
      reads this
    {
      Checker(meta, metaIn, rtlChecksum, pending)
    }

    method Step(ghost pending: seq<Segment>)
      modifies this
      ensures var (c, valid, flags) := VerifyStep(old(View(pending)));
              && View(pending) == c && metaOut == old(metaOut) + valid && portTableOut == old(portTableOut) + valid
              && dropPayload == old(dropPayload) + flags
    {
      if meta.None? {
        if metaIn != [] {
          meta, metaIn := Some(metaIn[0]), metaIn[1..];
        }
      } else if rtlChecksum != [] {
        var m, correct := meta.value, rtlChecksum[0].checksum == 0;
        rtlChecksum := rtlChecksum[1..];
        if correct {
          metaOut := metaOut + [m];
          portTableOut := portTableOut + [m];
        }
        if m.meta.length != 0 {
          dropPayload := dropPayload + [!correct];
        }
        meta := None;
      }
    }
  }

  /** The event for a reset segment: the acknowledgement number and the tuple it is sent on. */
  datatype Reset = Reset(ackNumb: Seq32, tuple: FourTuple)

  function Switched(t: FourTuple): FourTuple { FourTuple(t.dstIp, t.srcIp, t.dstPort, t.srcPort) }

  /** A closed port is answered with RST to where the segment came from, unless the segment is one itself. */
  function Resets(s: Segment): seq<Reset> {
    if s.meta.rst then []
    else [Reset(Mod32(s.meta.seqNumb + s.meta.length + if s.meta.syn || s.meta.fin then 1 else 0), Switched(s.tuple))]
  }

  /** The reset goes back: source and destination change places. Its acknowledgement number is the one behind the segment (RFC 793,
      section 3.4), where a SYN and a FIN count one each; only on a segment with both it falls short, by one. */
  lemma {:induction false} ResetsGoBack(s: Segment)
    ensures Resets(s) == [] <==> s.meta.rst
    ensures !s.meta.rst ==>
              var r := Resets(s)[0];
              && |Resets(s)| == 1
              && r.tuple.srcIp == s.tuple.dstIp && r.tuple.dstIp == s.tuple.srcIp
              && r.tuple.srcPort == s.tuple.dstPort && r.tuple.dstPort == s.tuple.srcPort
              && (r.ackNumb == Mod32(s.meta.seqNumb + s.meta.length + (if s.meta.syn then 1 else 0) + (if s.meta.fin then 1 else 0))
                  <==> !(s.meta.syn && s.meta.fin))
  {
    if s.meta.syn && s.meta.fin { Mod32Diff(s.meta.seqNumb + s.meta.length + 2, s.meta.seqNumb + s.meta.length + 1); }
  }

  /** queries are the ones to the session lookup: the tuple, and whether it may create a session, which only a SYN or SYN-ACK may. */
  class RxEngMetadataHandler {
    var meta: Option<Segment>
    var metaIn: seq<Segment>
    var portRsp: seq<Segment>
    var lookupRsp: seq<Segment>
    var lookupReq: seq<Segment>
    var queries: seq<(FourTuple, bool)>
    var resets: seq<Reset>
    var dropData: seq<bool>
    var fsmMeta: seq<Segment>

    function View(portPending: seq<Segment>): Handler
      reads this
    {
      Handler(meta, metaIn, portRsp, portPending, lookupRsp, lookupReq)
    }

    method Step(ghost portPending: seq<Segment>)
      modifies this
      ensures var (h, flags, hits) := HandleStep(old(View(portPending)));
              View(portPending) == h && dropData == old(dropData) + flags && fsmMeta == old(fsmMeta) + hits
      ensures resets == old(resets) + if old(meta.None? && metaIn != [] && portRsp != [] && !portRsp[0].portOpen)
                                      then Resets(old(metaIn)[0]) else []
      ensures queries == old(queries) + (if |lookupReq| == old(|lookupReq|) then [] else
                                           var m := lookupReq[old(|lookupReq|)];
                                           [(m.tuple, m.meta.syn && !m.meta.rst && !m.meta.fin)])
    {
      if meta.None? {
        if metaIn != [] && portRsp != [] {
          var m, portIsOpen := metaIn[0], portRsp[0].portOpen;
          metaIn, portRsp := metaIn[1..], portRsp[1..];
          if !portIsOpen {
            resets := resets + Resets(m);
            if m.meta.length != 0 {
              dropData := dropData + [true];
            }
          } else {
            lookupReq := lookupReq + [m];
            queries := queries + [(m.tuple, m.meta.syn && !m.meta.rst && !m.meta.fin)];
            meta := Some(m);
          }
        }
      } else if lookupRsp != [] {
        var m, hit := meta.value, lookupRsp[0].hit;
        lookupRsp := lookupRsp[1..];
        if hit {
          fsmMeta := fsmMeta + [m];
        }
        if m.meta.length != 0 {
          dropData := dropData + [!hit];
        }
        meta := None;
      }
    }
  }

  class RxEngPacketDropper {
    var state: Mode
    var verifyChecksumDrop: seq<bool>
    var metaHandlerDrop: seq<bool>
    var tcpFsmDrop: seq<bool>
    var dataIn: seq<Word>
    var rxBufferDataOut: seq<Word>

    function View(): Dropper
      reads this
    {
      Dropper(state, verifyChecksumDrop, metaHandlerDrop, tcpFsmDrop, dataIn, rxBufferDataOut)
    }

    method Step()
      modifies this
      ensures View() == DropStep(old(View()))
    {
      if state.ReadVerifyChecksum? {
        if verifyChecksumDrop != [] {
          state := if verifyChecksumDrop[0] then Drop else ReadMetaHandler;
          verifyChecksumDrop := verifyChecksumDrop[1..];
        }
      } else if state.ReadMetaHandler? {
        if metaHandlerDrop != [] {
          state := if metaHandlerDrop[0] then Drop else ReadFsmDrop;
          metaHandlerDrop := metaHandlerDrop[1..];
        }
      } else if state.ReadFsmDrop? {
        if tcpFsmDrop != [] {
          state := if tcpFsmDrop[0] then Drop else Forward;
          tcpFsmDrop := tcpFsmDrop[1..];
        }
      } else if dataIn != [] {
        var currWord := dataIn[0];
        dataIn := dataIn[1..];
        if state.Forward? {
          rxBufferDataOut := rxBufferDataOut + [currWord];
        }
        if currWord.last {
          state := ReadVerifyChecksum;
        }
      }
    }
  }
}
