/** From the application to the peer's RX engine: the metadata and the read commands of the meta loader beside the runs of the transmit
    path, and what a receiver finds in each packet that is built from them. */
module TxDelivery {
  import opened Words
  import opened ToeTypes
  import opened TxTables
  import opened Retransmit
  import opened TxWindow
  import opened TxFidelity
  import T = WireTx
  import V = WireRx

  /** The reply of rx_sar_table that is loaded; the metadata of the segments sent; the metadata and the commands of those that are still to
      be read from the buffer. */
  datatype Out = Out(loaded: RxInfo, sent: seq<TxMeta>, waiting: seq<TxMeta>, cmds: seq<ReadCmd>)

  /** The step takes the replies of both tables. */
  predicate Loads(e: Eng, a: Action) {
    e.rsp != [] && ((a.SendNew? && e.cur.New?) || (a.StartResend? && e.cur.Resend?))
  }

  function Loaded(o: Out, e: Eng, a: Action, rx: RxInfo): Out { if Loads(e, a) then o.(loaded := rx) else o }

  function Labelled(o: Out, id: SessionId, l: Label): Out {
    match l
    case Sent(n, length) => o.(sent := o.sent + [DataMeta(o.loaded, Segment(n, 0, length))])
    case ReadBack(segs) => o.(waiting := o.waiting + Metas(o.loaded, segs), cmds := o.cmds + Reads(id, segs))
    case _ => o
  }

  /** Metadata waits for the read of its payload. */
  function ReadDone(o: Out): Out {
    if o.waiting == [] || o.cmds == [] then o
    else o.(sent := o.sent + [o.waiting[0]], waiting := o.waiting[1..], cmds := o.cmds[1..])
  }

  /** rx is the reply that is at the head of its FIFO. */
  function OutStep(o: Out, s: Sys, a: Step, rx: RxInfo): Out {
    match a
    case Window(b, _, _) => Labelled(Loaded(o, s.win.eng, b, rx), s.data.id, LabelOf(s.win, b))
    case WriteBuffer(_) => o
    case ReadBuffer(_) => if s.data.readCmds == [] then o else ReadDone(o)
  }

  /** The replies that the segments sent and those still to be read were made with. */
  datatype Told = Told(sent: seq<RxInfo>, waiting: seq<RxInfo>)

  function ToldStep(k: Told, o: Out, s: Sys, a: Step, rx: RxInfo): Told {
    match a
    case Window(b, _, _) =>
      var info := if Loads(s.win.eng, b) then rx else o.loaded;
      (match LabelOf(s.win, b)
       case Sent(_, _) => k.(sent := k.sent + [info])
       case ReadBack(segs) => k.(waiting := k.waiting + seq(|segs|, _ => info))
       case _ => k)
    case WriteBuffer(_) => k
    case ReadBuffer(_) =>
      if s.data.readCmds == [] || k.waiting == [] then k
      else k.(sent := k.sent + [k.waiting[0]], waiting := k.waiting[1..])
  }

  // ----- the invariant -----

  /** The header of len bytes of data at position pos: its sequence number, the acknowledgement and window read for it, its length, and
      no flag but ACK. */
  predicate MetaOk(m: TxMeta, rx: RxInfo, pos: int, len: nat) { DataHeader(m, rx, Mod32(pos), len) }

  predicate MetasOk(ms: seq<TxMeta>, rxs: seq<RxInfo>, at: seq<At>) {
    && |ms| == |rxs| == |at|
    && forall i {:trigger MetaOk(ms[i], rxs[i], at[i].pos, at[i].len)} ::
         0 <= i < |ms| ==> MetaOk(ms[i], rxs[i], at[i].pos, at[i].len)
  }

  /** A read command of session id: its own 2^WINDOW_BITS bytes of the memory, from the place of the position on. */
  predicate CmdOk(c: ReadCmd, id: SessionId, pos: int, len: nat) { Fetches(c, id, Mod32(pos), len) }

  predicate WaitOk(m: TxMeta, c: ReadCmd, rx: RxInfo, id: SessionId, pos: int, len: nat) { MetaOk(m, rx, pos, len) && CmdOk(c, id, pos, len) }

  predicate WaitsOk(ms: seq<TxMeta>, cs: seq<ReadCmd>, rxs: seq<RxInfo>, id: SessionId, at: seq<int>, rs: seq<Segment>) {
    && |ms| == |cs| == |rxs| == |at| == |rs|
    && forall i {:trigger WaitOk(ms[i], cs[i], rxs[i], id, at[i], rs[i].length)} ::
         0 <= i < |ms| ==> WaitOk(ms[i], cs[i], rxs[i], id, at[i], rs[i].length)
  }

  predicate OutOk(o: Out, k: Told, d: Data, h: DataGhost) {
    MetasOk(o.sent, k.sent, h.sentAt) && WaitsOk(o.waiting, o.cmds, k.waiting, d.id, h.readAt, d.readCmds)
  }

  lemma {:induction false} MetasPush(ms: seq<TxMeta>, rxs: seq<RxInfo>, at: seq<At>, m: TxMeta, rx: RxInfo, a: At)
    requires MetasOk(ms, rxs, at) && MetaOk(m, rx, a.pos, a.len)
    ensures MetasOk(ms + [m], rxs + [rx], at + [a])
  {
    forall i | 0 <= i <= |ms| ensures MetaOk((ms + [m])[i], (rxs + [rx])[i], (at + [a])[i].pos, (at + [a])[i].len) {
      if i < |ms| { assert MetaOk(ms[i], rxs[i], at[i].pos, at[i].len); }
    }
  }

  lemma {:induction false} WaitsPush(ms: seq<TxMeta>, cs: seq<ReadCmd>, rxs: seq<RxInfo>, id: SessionId, at: seq<int>, rs: seq<Segment>,
                                     m: TxMeta, c: ReadCmd, rx: RxInfo, pos: int, r: Segment)
    requires WaitsOk(ms, cs, rxs, id, at, rs) && WaitOk(m, c, rx, id, pos, r.length)
    ensures WaitsOk(ms + [m], cs + [c], rxs + [rx], id, at + [pos], rs + [r])
  {
    forall i | 0 <= i <= |ms|
      ensures WaitOk((ms + [m])[i], (cs + [c])[i], (rxs + [rx])[i], id, (at + [pos])[i], (rs + [r])[i].length)
    {
      if i < |ms| { assert WaitOk(ms[i], cs[i], rxs[i], id, at[i], rs[i].length); }
    }
  }

  lemma {:induction false} WaitsPop(ms: seq<TxMeta>, cs: seq<ReadCmd>, rxs: seq<RxInfo>, id: SessionId, at: seq<int>, rs: seq<Segment>)
    requires WaitsOk(ms, cs, rxs, id, at, rs) && ms != []
    ensures WaitOk(ms[0], cs[0], rxs[0], id, at[0], rs[0].length)
    ensures WaitsOk(ms[1..], cs[1..], rxs[1..], id, at[1..], rs[1..])
  {
    assert WaitOk(ms[0], cs[0], rxs[0], id, at[0], rs[0].length);
    forall i | 0 <= i < |ms| - 1 ensures WaitOk(ms[1..][i], cs[1..][i], rxs[1..][i], id, at[1..][i], rs[1..][i].length) {
      assert WaitOk(ms[i + 1], cs[i + 1], rxs[i + 1], id, at[i + 1], rs[i + 1].length);
    }
  }

  lemma {:induction false} ReadCmdIs(id: SessionId, s: Segment, pos: int)
    requires s.offset == Mod18(pos)
    ensures CmdOk(ReadCmd(BufferAddress(id, s.offset), s.length), id, pos, s.length)
  {
    Mod18Of32(pos);
  }

  /** One label, with the reply loaded. */
  lemma {:induction false} LabelOut(o: Out, k: Told, d: Data, g: Ghost, h: DataGhost, l: Label, payload: Payload, words: seq<Word>)
    requires OutOk(o, k, d, h) && LabelOk(g, l)
    ensures var k' := match l
                      case Sent(_, _) => k.(sent := k.sent + [o.loaded])
                      case ReadBack(segs) => k.(waiting := k.waiting + seq(|segs|, _ => o.loaded))
                      case _ => k;
            OutOk(Labelled(o, d.id, l), k', DataStep(d, l, payload, words), DataNext(h, g, l, payload))
  {
    match l
    case Sent(n, length) =>
      MetasPush(o.sent, k.sent, h.sentAt, DataMeta(o.loaded, Segment(n, 0, length)), o.loaded, NewAt(g.eng.nextPending, length));
    case ReadBack(segs) =>
      if segs == [] {
        assert o.waiting + Metas(o.loaded, segs) == o.waiting && o.cmds + Reads(d.id, segs) == o.cmds;
        assert k.waiting + seq(|segs|, _ => o.loaded) == k.waiting && d.readCmds + segs == d.readCmds;
        assert h.readAt + seq(|segs|, _ => g.eng.rest) == h.readAt;
      } else {
        var s := segs[0];
        ReadCmdIs(d.id, s, g.eng.rest);
        WaitsPush(o.waiting, o.cmds, k.waiting, d.id, h.readAt, d.readCmds,
                  DataMeta(o.loaded, s), ReadCmd(BufferAddress(d.id, s.offset), s.length), o.loaded, g.eng.rest, s);
        assert Metas(o.loaded, segs) == [DataMeta(o.loaded, s)];
        assert Reads(d.id, segs) == [ReadCmd(BufferAddress(d.id, s.offset), s.length)];
        assert seq(|segs|, _ => o.loaded) == [o.loaded] && segs == [s] && seq(|segs|, _ => g.eng.rest) == [g.eng.rest];
      }
    case _ =>
  }

  lemma {:induction false} ReadOut(o: Out, k: Told, d: Data, h: DataGhost, prev: Word, acked: int)
    requires OutOk(o, k, d, h) && d.readCmds != []
    ensures OutOk(ReadDone(o), Told(k.sent + [k.waiting[0]], k.waiting[1..]), ReadStep(d, prev), ReadNext(h, d, acked))
  {
    WaitsPop(o.waiting, o.cmds, k.waiting, d.id, h.readAt, d.readCmds);
    MetasPush(o.sent, k.sent, h.sentAt, o.waiting[0], k.waiting[0], At(h.readAt[0], d.readCmds[0].length, acked, h.stored));
  }

  lemma {:induction false} OutStepOk(o: Out, k: Told, s: Sys, g: SysGhost, a: Step, rx: RxInfo)
    requires SysInv(s, g) && OutOk(o, k, s.data, g.data)
    ensures OutOk(OutStep(o, s, a, rx), ToldStep(k, o, s, a, rx), SysStep(s, a).data, SysNext(g, s, a).data)
  {
    match a
    case Window(b, payload, words) =>
      LabelsOk(s.win, g.win, b);
      LabelOut(Loaded(o, s.win.eng, b, rx), k, s.data, g.win, g.data, LabelOf(s.win, b), payload, words);
    case WriteBuffer(_) =>
    case ReadBuffer(prev) => if s.data.readCmds != [] { ReadOut(o, k, s.data, g.data, prev, g.win.rx.acked); }
  }

  // ----- runs -----

  /** A run of the transmit path with the meta loader's outputs beside it; rxs are the replies at the head of the FIFO in each step. */
  datatype Delivery = Delivery(run: Trace, outs: seq<Out>, told: seq<Told>, rxs: seq<RxInfo>)

  predicate OutMoves(v: Delivery, i: int) {
    && 0 <= i < |v.run.steps| && i + 1 < |v.run.states| && i + 1 < |v.outs| && i + 1 < |v.told| && i < |v.rxs|
    && v.outs[i + 1] == OutStep(v.outs[i], v.run.states[i], v.run.steps[i], v.rxs[i])
    && v.told[i + 1] == ToldStep(v.told[i], v.outs[i], v.run.states[i], v.run.steps[i], v.rxs[i])
  }

  predicate IsDelivery(v: Delivery) {
    && IsRun(v.run) && |v.outs| == |v.told| == |v.run.steps| + 1 && |v.rxs| == |v.run.steps|
    && v.outs[0] == Out(v.outs[0].loaded, [], [], []) && v.told[0] == Told([], [])
    && forall i {:trigger OutMoves(v, i)} :: 0 <= i < |v.run.steps| ==> OutMoves(v, i)
  }

  lemma {:induction false} OutRun(v: Delivery, n: nat)
    requires IsDelivery(v) && n <= |v.run.steps|
    ensures OutOk(v.outs[n], v.told[n], v.run.states[n].data, v.run.counters[n].data)
  {
    if n > 0 {
      OutRun(v, n - 1);
      SysInvRun(v.run, n - 1);
      assert OutMoves(v, n - 1) && Moves(v.run, n - 1);
      OutStepOk(v.outs[n - 1], v.told[n - 1], v.run.states[n - 1], v.run.counters[n - 1], v.run.steps[n - 1], v.rxs[n - 1]);
    }
  }

  /** t, h, o and k are the state, the counters, the outputs and the replies at the end of a run. */
  predicate Ends(v: Delivery, t: Sys, h: SysGhost, o: Out, k: Told) {
    && IsDelivery(v) && Reached(v.run, t, h) && o == v.outs[|v.run.steps|] && k == v.told[|v.run.steps|]
  }

  /** Over any run, for new data and for every retransmission: the header of packet i carries the sequence number of its first byte,
      the acknowledgement and the window read for it, its length, and ACK alone. */
  lemma {:induction false} HeadersAreRight(v: Delivery, t: Sys, h: SysGhost, o: Out, k: Told, i: nat)
    requires Ends(v, t, h, o, k) && i < |o.sent|
    ensures |o.sent| == |t.data.sent| == |h.data.sentAt| == |k.sent|
    ensures MetaOk(o.sent[i], k.sent[i], h.data.sentAt[i].pos, h.data.sentAt[i].len) && o.sent[i].seqNumb == t.data.sent[i].seqNumb
  {
    OutRun(v, |v.run.steps|);
    ReachedSent(v.run, t, h);
    assert MetaOk(o.sent[i], k.sent[i], h.data.sentAt[i].pos, h.data.sentAt[i].len);
    assert PacketOk(t.data.id, t.data.sent[i], h.data.sentAt[i], h.data.base, h.data.stream);
  }

  /** The next read command is that of the oldest segment to be read back: in the buffer of its session, at the place of its position. */
  lemma {:induction false} ReadsAreRight(v: Delivery, t: Sys, h: SysGhost, o: Out, k: Told)
    requires Ends(v, t, h, o, k) && o.cmds != []
    ensures t.data.readCmds != [] && h.data.readAt != [] && o.waiting != [] && k.waiting != []
    ensures WaitOk(o.waiting[0], o.cmds[0], k.waiting[0], t.data.id, h.data.readAt[0], t.data.readCmds[0].length)
  {
    OutRun(v, |v.run.steps|);
    WaitsPop(o.waiting, o.cmds, k.waiting, t.data.id, h.data.readAt, t.data.readCmds);
  }

  // ----- what the receiver finds -----

  /** The metadata as the header's builder takes it; the shift is looked at in a SYN only. */
  function Header(m: TxMeta, shift: Bits4): T.TcpMeta {
    T.TcpMeta(m.seqNumb, m.ackNumb, m.windowSize, shift, m.length, m.ack, m.rst, m.syn, m.fin)
  }

  /** Whether the receiver finds metadata e and payload p in the packet built from a tuple, metadata, words and checksum. */
  type Wire = (FourTuple, T.TcpMeta, seq<Word>, Word16, V.RxMeta, seq<Byte>) -> bool

  predicate OnWire(tuple: FourTuple, m: T.TcpMeta, words: seq<Word>, checksum: Word16, e: V.RxMeta, p: seq<Byte>) {
    V.ReadAs(V.Transmit(tuple, m, words, checksum), e, p)
  }

  /** What is read is what was sent. */
  ghost predicate Faithful(wire: Wire) {
    forall tuple, m, words, checksum, e, p {:trigger wire(tuple, m, words, checksum, e, p)} ::
      V.TxMetaOk(m, p) && (p != [] ==> Packed(words, p)) && e == V.Expected(tuple, m, |p|) ==> wire(tuple, m, words, checksum, e, p)
  }

  lemma {:induction false} OnWireFaithful()
    ensures Faithful(OnWire)
  {
    forall tuple, m, words, checksum, e, p
      | V.TxMetaOk(m, p) && (p != [] ==> Packed(words, p)) && e == V.Expected(tuple, m, |p|)
      ensures OnWire(tuple, m, words, checksum, e, p)
    {
      V.TransmittedReadAs(tuple, m, words, p, checksum);
    }
  }

  /** In the packet that is built from metadata and words the receiver finds the position's sequence number, what was read for it, no flag
      but ACK (0x10), and the bytes p. */
  predicate Found(wire: Wire, tuple: FourTuple, m: TxMeta, shift: Bits4, words: seq<Word>, checksum: Word16, rx: RxInfo, pos: int, p: seq<Byte>) {
    wire(tuple, Header(m, shift), words, checksum, V.RxMeta(tuple, Mod32(pos), rx.recvd, rx.windowSize, |p| % 0x1_0000, 0x10, 5), p)
  }

  lemma {:induction false} HeaderExpected(tuple: FourTuple, m: TxMeta, shift: Bits4, rx: RxInfo, pos: int, n: Word16)
    requires MetaOk(m, rx, pos, n)
    ensures V.Expected(tuple, Header(m, shift), n) == V.RxMeta(tuple, Mod32(pos), rx.recvd, rx.windowSize, n, 0x10, 5)
  {}

  lemma {:induction false} FoundIs(wire: Wire, tuple: FourTuple, m: TxMeta, shift: Bits4, words: seq<Word>, checksum: Word16,
                                   rx: RxInfo, pos: int, p: seq<Byte>)
    requires Faithful(wire) && MetaOk(m, rx, pos, |p|) && Packed(words, p)
    ensures Found(wire, tuple, m, shift, words, checksum, rx, pos, p)
  {
    HeaderExpected(tuple, m, shift, rx, pos, |p|);
  }

  /** A bare acknowledgement or a FIN arrives as one: with the acknowledgement and window that were read for it, its flags (FIN 0x01,
      ACK 0x10), and no payload. */
  lemma {:induction false} AcknowledgementDelivered(tuple: FourTuple, m: TxMeta, shift: Bits4, words: seq<Word>, checksum: Word16,
                                                    rx: RxInfo, n: Seq32)
    requires AckHeader(m, rx, n) || FinHeader(m, rx, n)
    ensures OnWire(tuple, Header(m, shift), words, checksum,
                   V.RxMeta(tuple, n, rx.recvd, rx.windowSize, 0, if m.fin then 0x11 else 0x10, 5), [])
  {
    OnWireFaithful();
    BareExpected(tuple, m, shift, rx, n);
    BareOnWire(OnWire, tuple, Header(m, shift), words, checksum,
               V.RxMeta(tuple, n, rx.recvd, rx.windowSize, 0, if m.fin then 0x11 else 0x10, 5));
  }

  lemma {:induction false} BareExpected(tuple: FourTuple, m: TxMeta, shift: Bits4, rx: RxInfo, n: Seq32)
    requires AckHeader(m, rx, n) || FinHeader(m, rx, n)
    ensures V.Expected(tuple, Header(m, shift), 0) == V.RxMeta(tuple, n, rx.recvd, rx.windowSize, 0, if m.fin then 0x11 else 0x10, 5)
  {}

  lemma {:induction false} BareOnWire(wire: Wire, tuple: FourTuple, hm: T.TcpMeta, words: seq<Word>, checksum: Word16, e: V.RxMeta)
    requires Faithful(wire) && !hm.syn && hm.length == 0 && e == V.Expected(tuple, hm, 0)
    ensures wire(tuple, hm, words, checksum, e, [])
  {
    assert V.TxMetaOk(hm, []);
  }

  /** All bytes of the packet were stored and not overwritten when it was read. */
  predicate WholeInPlace(at: At) { at.stored - BUFFER_SIZE <= at.pos && at.pos + at.len <= at.stored }

  lemma {:induction false} WholeIsStream(d: Data, h: DataGhost, i: nat)
    requires SentOk(d.id, d.sent, h.sentAt, h.base, h.stream) && i < |d.sent|
    requires Readable(d.id, d.sent[i].again, h.sentAt[i]) && WholeInPlace(h.sentAt[i])
    ensures var p, at := d.sent[i], h.sentAt[i];
            && 0 <= at.pos - h.base && at.pos - h.base + at.len <= |h.stream| && 0 < at.len
            && Packed(p.words, h.stream[at.pos - h.base .. at.pos - h.base + at.len])
  {
    var p, at := d.sent[i], h.sentAt[i];
    assert PacketOk(d.id, p, at, h.base, h.stream);
    var b, c := Bytes(p.words, at.len), h.stream[at.pos - h.base .. at.pos - h.base + at.len];
    forall x | 0 <= x < at.len ensures b[x] == c[x] { SentByte(d, h, i, x); }
    SentByte(d, h, i, 0);
    assert b == c;
  }

  /** The receiver finds the application's own bytes of positions at.pos to at.pos + at.len. */
  predicate Delivered(wire: Wire, h: DataGhost, at: At, words: seq<Word>, m: TxMeta, rx: RxInfo, tuple: FourTuple, shift: Bits4, checksum: Word16) {
    && 0 <= at.pos - h.base && at.pos - h.base + at.len <= |h.stream|
    && Found(wire, tuple, m, shift, words, checksum, rx, at.pos, h.stream[at.pos - h.base .. at.pos - h.base + at.len])
  }

  lemma {:induction false} PacketDelivered(wire: Wire, d: Data, h: DataGhost, i: nat, m: TxMeta, rx: RxInfo,
                                           tuple: FourTuple, shift: Bits4, checksum: Word16)
    requires Faithful(wire) && SentOk(d.id, d.sent, h.sentAt, h.base, h.stream) && i < |d.sent|
    requires Readable(d.id, d.sent[i].again, h.sentAt[i]) && WholeInPlace(h.sentAt[i])
    requires MetaOk(m, rx, h.sentAt[i].pos, h.sentAt[i].len)
    ensures Delivered(wire, h, h.sentAt[i], d.sent[i].words, m, rx, tuple, shift, checksum)
  {
    WholeIsStream(d, h, i);
    var at := h.sentAt[i];
    FoundIs(wire, tuple, m, shift, d.sent[i].words, checksum, rx, at.pos, h.stream[at.pos - h.base .. at.pos - h.base + at.len]);
  }

  lemma {:induction false} EndFacts(v: Delivery, t: Sys, h: SysGhost, o: Out, k: Told, i: nat)
    requires Ends(v, t, h, o, k) && i < |o.sent|
    ensures SentOk(t.data.id, t.data.sent, h.data.sentAt, h.data.base, h.data.stream) && |o.sent| == |t.data.sent| == |k.sent|
    ensures MetaOk(o.sent[i], k.sent[i], h.data.sentAt[i].pos, h.data.sentAt[i].len)
  {
    HeadersAreRight(v, t, h, o, k, i);
    ReachedSent(v.run, t, h);
  }

  /** End to end, over any run: of each packet whose read was cut rightly and whose bytes were in place, new data or repeated, the
      receiver finds the addresses and ports, the sequence number of its first byte, the acknowledgement and window that were read, its
      length, the ACK flag alone, and as payload the bytes that the application wrote at these positions. */
  lemma {:induction false} DeliveredAsWritten(v: Delivery, t: Sys, h: SysGhost, o: Out, k: Told, i: nat,
                                              tuple: FourTuple, shift: Bits4, checksum: Word16)
    requires Ends(v, t, h, o, k) && i < |o.sent| && i < |t.data.sent| && i < |h.data.sentAt| && i < |k.sent|
    requires Readable(t.data.id, t.data.sent[i].again, h.data.sentAt[i]) && WholeInPlace(h.data.sentAt[i])
    ensures Delivered(OnWire, h.data, h.data.sentAt[i], t.data.sent[i].words, o.sent[i], k.sent[i], tuple, shift, checksum)
  {
    EndFacts(v, t, h, o, k, i);
    OnWireFaithful();
    PacketDelivered(OnWire, t.data, h.data, i, o.sent[i], k.sent[i], tuple, shift, checksum);
  }
}
