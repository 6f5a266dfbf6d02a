/** Retransmission fidelity: the transmit buffer with the memory commands that write and read it, and every data segment that leaves,
    on top of the transmit window. */
module TxFidelity {
  import opened CircularBuffer
  import opened Words
  import opened ToeTypes
  import opened TxTables
  import opened Retransmit
  import opened TxWindow
  import R = BufferRead
  import W = BufferWrite

  type Payload = p: seq<Byte> | |p| < 0x1_0000

  /** What earlier writes may have left in the static variables of tx_Data_to_Memory. */
  type Writer = w: W.Writer | W.WellFormed(w) witness W.Writer(W.WaitCmd, Cmd(0, 0), 0, 0, 0, 0, ZERO)

  datatype Write = Write(addr: Win18, data: Payload, words: seq<Word>)
  datatype Packet = Packet(seqNumb: Seq32, words: seq<Word>, again: bool)

  /** The buffer of session id, its write commands with their words, the bytes that bypass it, its read commands, and the payloads of
      the segments sent. */
  datatype Data = Data(
    id: SessionId, buffer: Buffer, writes: seq<Write>, bypass: seq<Byte>, readCmds: seq<Segment>, sent: seq<Packet>)

  datatype Sys = Sys(win: Win, data: Data)

  /** words are those the application sends the payload in, or those of the packet that takes the bypass. */
  datatype Step =
    | Window(a: Action, payload: Payload, words: seq<Word>)
    | WriteBuffer(writer: Writer)
    | ReadBuffer(prev: Word)

  function Take(s: seq<Byte>, n: nat): seq<Byte> { if n <= |s| then s[..n] else s }
  function Drop(s: seq<Byte>, n: nat): seq<Byte> { if n <= |s| then s[n..] else [] }

  function DataStep(d: Data, l: Label, payload: Payload, words: seq<Word>): Data {
    match l
    case Quiet => d
    case Admitted(addr, _) => d.(writes := d.writes + [Write(addr, payload, words)], bypass := d.bypass + payload)
    case Sent(n, length) => d.(bypass := Drop(d.bypass, length), sent := d.sent + [Packet(n, words, false)])
    case ReadBack(segs) => d.(readCmds := d.readCmds + segs)
  }

  /** The bursts of a write, one or two, executed by the memory. */
  function Written(id: SessionId, m: Buffer, w: Write, writer: Writer): Buffer {
    if w.data == [] then m else W.Execute(m, W.Bursts(Cmd(BufferAddress(id, w.addr), |w.data|), writer, w.words))
  }

  function WriteStep(d: Data, writer: Writer): Data {
    if d.writes == [] then d else d.(buffer := Written(d.id, d.buffer, d.writes[0], writer), writes := d.writes[1..])
  }

  /** The words of a read, after its one or two commands and the aligner. */
  function ReadWords(d: Data, s: Segment, prev: Word): seq<Word> { R.Read(d.buffer, BufferAddress(d.id, s.offset), s.length, prev) }

  function ReadStep(d: Data, prev: Word): Data {
    if d.readCmds == [] then d
    else
      var s := d.readCmds[0];
      d.(readCmds := d.readCmds[1..], sent := d.sent + [Packet(s.seqNumb, ReadWords(d, s, prev), true)])
  }

  function SysStep(s: Sys, a: Step): Sys {
    match a
    case Window(b, payload, words) => Sys(Apply(s.win, b), DataStep(s.data, LabelOf(s.win, b), payload, words))
    case WriteBuffer(writer) => s.(data := WriteStep(s.data, writer))
    case ReadBuffer(prev) => s.(data := ReadStep(s.data, prev))
  }

  /** The words carry what they stand for. */
  predicate WordsOk(d: Data, l: Label, payload: Payload, words: seq<Word>) {
    && (l.Admitted? ==> |payload| == l.length && (payload != [] ==> Packed(words, payload)))
    && (l.Sent? ==> Packed(words, Take(d.bypass, l.length)))
  }

  /** The application supplies as many bytes as it asked for, in well-packed words, and acknowledgements are acceptable. */
  predicate Allowed(s: Sys, a: Step) {
    a.Window? ==> Acceptable(s.win, a.a) && WordsOk(s.data, LabelOf(s.win, a.a), a.payload, a.words)
  }

  // ----- unbounded positions -----

  /** The position and the length of a packet, and, when it was taken from the buffer, what was acknowledged and stored by then. */
  datatype At = At(pos: int, len: nat, acked: int, stored: int)

  /** All bytes accepted from the application, the position up to which they are in the buffer, the positions of the queued
      reads and of the segments sent. */
  datatype DataGhost = DataGhost(base: int, stream: seq<Byte>, stored: int, readAt: seq<int>, sentAt: seq<At>)

  function NewAt(pos: int, n: nat): At { At(pos, n, pos, pos + n) }

  function DataNext(h: DataGhost, g: Ghost, l: Label, payload: Payload): DataGhost {
    match l
    case Quiet => h
    case Admitted(_, _) => h.(stream := h.stream + payload)
    case Sent(_, n) => h.(sentAt := h.sentAt + [NewAt(g.eng.nextPending, n)])
    case ReadBack(segs) => h.(readAt := h.readAt + seq(|segs|, _ => g.eng.rest))
  }

  function WriteNext(h: DataGhost, d: Data): DataGhost {
    if d.writes == [] then h else h.(stored := h.stored + |d.writes[0].data|)
  }

  function ReadNext(h: DataGhost, d: Data, acked: int): DataGhost {
    if d.readCmds == [] || h.readAt == [] then h
    else
      h.(readAt := h.readAt[1..], sentAt := h.sentAt + [At(h.readAt[0], d.readCmds[0].length, acked, h.stored)])
  }

  datatype SysGhost = SysGhost(win: Ghost, data: DataGhost)

  function SysNext(g: SysGhost, s: Sys, a: Step): SysGhost {
    match a
    case Window(b, payload, _) => SysGhost(TxWindow.Next(g.win, s.win, b), DataNext(g.data, g.win, LabelOf(s.win, b), payload))
    case WriteBuffer(_) => g.(data := WriteNext(g.data, s.data))
    case ReadBuffer(_) => g.(data := ReadNext(g.data, s.data, g.win.rx.acked))
  }

  // ----- the invariant -----

  predicate WritesOk(writes: seq<Write>, pos: int, rest: seq<Byte>) {
    if writes == [] then rest == []
    else
      && writes[0].addr == Mod18(pos) && |writes[0].data| <= |rest| && rest[..|writes[0].data|] == writes[0].data
      && WritesOk(writes[1..], pos + |writes[0].data|, rest[|writes[0].data|..])
  }

  predicate WriteFits(w: Write) { w.data != [] ==> Packed(w.words, w.data) }

  predicate WordsFit(writes: seq<Write>) { forall i {:trigger WriteFits(writes[i])} :: 0 <= i < |writes| ==> WriteFits(writes[i]) }

  predicate Holds(m: Buffer, base: int, stream: seq<Byte>, k: int) { 0 <= k < |stream| && m[Mod18(base + k)] == stream[k] }

  /** The last 2^WINDOW_BITS bytes stored are at their positions modulo the buffer size. */
  ghost predicate BufferOk(m: Buffer, h: DataGhost) {
    && 0 <= h.stored - h.base <= |h.stream|
    && forall k {:trigger Holds(m, h.base, h.stream, k)} ::
         0 <= k < |h.stream| && h.base + k < h.stored <= h.base + k + BUFFER_SIZE ==> Holds(m, h.base, h.stream, k)
  }

  predicate ReadAtOk(r: Segment, pos: int, base: int, end: int) {
    r.seqNumb == Mod32(pos) && r.offset == Mod18(pos) && base <= pos && 0 < r.length && pos + r.length <= end
  }

  predicate ReadsOk(readCmds: seq<Segment>, at: seq<int>, base: int, end: int) {
    && |readCmds| == |at|
    && forall i {:trigger ReadAtOk(readCmds[i], at[i], base, end)} ::
         0 <= i < |readCmds| ==> ReadAtOk(readCmds[i], at[i], base, end)
  }

  /** The last position below stored that lies in the same byte of the buffer as position q. */
  function Latest(stored: int, q: int): int { stored - 1 - Mod18(stored - 1 - q) }

  /** Position q was stored and not yet overwritten. */
  predicate InPlace(at: At, q: int) { at.stored - BUFFER_SIZE <= q < at.stored }

  /** The data of the first n lanes. */
  function Bytes(ws: seq<Word>, n: nat): seq<Byte> { seq(n, i => if 0 <= i < |Flat(ws)| then Flat(ws)[i].data else 0) }

  /** A packet carries at each place what was last stored at that place of the buffer. */
  predicate ByteOk(data: seq<Byte>, at: At, base: int, stream: seq<Byte>, x: int) {
    var k := Latest(at.stored, at.pos + x) - base;
    0 <= k ==> k < |stream| && 0 <= x < |data| && data[x] == stream[k]
  }

  predicate BytesOk(data: seq<Byte>, at: At, base: int, stream: seq<Byte>) {
    forall x {:trigger ByteOk(data, at, base, stream, x)} :: 0 <= x < |data| ==> ByteOk(data, at, base, stream, x)
  }

  /** Whether the commands read such a packet back: new data always comes along, a repeated packet by BufferRead.ReadsRight. */
  predicate Readable(id: SessionId, again: bool, at: At) {
    again ==> at.len < 0x1_0000 && R.ReadsRight(BufferAddress(id, Mod18(at.pos)), at.len)
  }

  lemma {:induction false} AddressOffset(id: SessionId, o: Win18)
    ensures Offset(BufferAddress(id, o)) == o
  {}

  /** In even sessions: all but those of full words only that end exactly at the end of the buffer. In odd ones: those that reach that
      end, and a few more. */
  lemma {:induction false} ReadableExactly(id: SessionId, at: At)
    requires at.len < 0x1_0000
    ensures var end := Mod18(at.pos) + at.len;
            Readable(id, true, at)
            <==> if id % 2 == 0 then !(end == BUFFER_SIZE && at.len % LANES == 0)
                 else end >= BUFFER_SIZE || (end % 0x1_0000 == 0 && at.len % LANES != 0)
  {
    var o := Mod18(at.pos);
    AddressOffset(id, o);
    assert BufferAddress(id, o) / BUFFER_SIZE == id;
  }

  predicate PacketOk(id: SessionId, p: Packet, at: At, base: int, stream: seq<Byte>) {
    && p.seqNumb == Mod32(at.pos) && base <= at.pos && 0 < at.len < 0x1_0000 && at.pos + at.len <= base + |stream|
    && at.stored - BUFFER_SIZE <= at.acked && base <= at.stored <= base + |stream| && (!p.again ==> at == NewAt(at.pos, at.len))
    && (Readable(id, p.again, at) ==> Packed(p.words, Bytes(p.words, at.len)) && BytesOk(Bytes(p.words, at.len), at, base, stream))
  }

  predicate SentOk(id: SessionId, sent: seq<Packet>, at: seq<At>, base: int, stream: seq<Byte>) {
    && |sent| == |at|
    && forall i {:trigger PacketOk(id, sent[i], at[i], base, stream)} :: 0 <= i < |sent| ==> PacketOk(id, sent[i], at[i], base, stream)
  }

  predicate BaseOk(g: Ghost, h: DataGhost) {
    h.base <= g.rx.acked && h.base <= g.eng.rest && h.base + |h.stream| == g.written
  }

  ghost predicate DataOk(d: Data, g: Ghost, h: DataGhost) {
    && BaseOk(g, h) && BufferOk(d.buffer, h)
    && WritesOk(d.writes, h.stored, h.stream[h.stored - h.base..]) && WordsFit(d.writes)
    && 0 <= g.eng.nextPending - h.base <= |h.stream| && d.bypass == h.stream[g.eng.nextPending - h.base..]
    && ReadsOk(d.readCmds, h.readAt, h.base, g.eng.nextPending)
    && SentOk(d.id, d.sent, h.sentAt, h.base, h.stream)
  }

  ghost predicate SysInv(s: Sys, g: SysGhost) { Inv(s.win, g.win) && DataOk(s.data, g.win, g.data) }

  // ----- the buffer -----

  lemma {:induction false} StoreAt(m: Buffer, pos: int, data: seq<Byte>, q: int)
    requires |data| <= BUFFER_SIZE && pos + |data| - BUFFER_SIZE <= q < pos + |data|
    ensures Store(m, Mod18(pos), data)[Mod18(q)] == if q < pos then m[Mod18(q)] else data[q - pos]
  {
    if q < pos {
      Mod18Diff(q + BUFFER_SIZE, pos);
      Mod18Add(q, BUFFER_SIZE);
      assert Mod18(q + BUFFER_SIZE) == Mod18(q);
    } else {
      Mod18Diff(q, pos);
    }
  }

  lemma {:induction false} StoreBuffer(m: Buffer, h: DataGhost, data: seq<Byte>)
    requires BufferOk(m, h) && |data| < BUFFER_SIZE && h.stored - h.base + |data| <= |h.stream|
    requires h.stream[h.stored - h.base .. h.stored - h.base + |data|] == data
    ensures BufferOk(Store(m, Mod18(h.stored), data), h.(stored := h.stored + |data|))
  {
    forall k | 0 <= k < |h.stream| && h.base + k < h.stored + |data| <= h.base + k + BUFFER_SIZE
      ensures Holds(Store(m, Mod18(h.stored), data), h.base, h.stream, k)
    {
      StoreAt(m, h.stored, data, h.base + k);
      if h.base + k >= h.stored {
        assert data[h.base + k - h.stored] == h.stream[k];
      } else {
        assert Holds(m, h.base, h.stream, k);
      }
    }
  }

  lemma {:induction false} WritesPop(writes: seq<Write>, pos: int, stream: seq<Byte>, k: nat)
    requires k <= |stream| && WritesOk(writes, pos, stream[k..]) && writes != []
    ensures var n := |writes[0].data|;
            && writes[0].addr == Mod18(pos) && k + n <= |stream| && stream[k .. k + n] == writes[0].data
            && WritesOk(writes[1..], pos + n, stream[k + n..])
  {
    var n := |writes[0].data|;
    assert stream[k..][n..] == stream[k + n..];
    assert stream[k..][..n] == stream[k .. k + n];
  }

  /** The bursts store the data circularly, whatever the writer was left with. */
  lemma {:induction false} WrittenIs(id: SessionId, m: Buffer, w: Write, writer: Writer)
    requires WriteFits(w)
    ensures Written(id, m, w, writer) == Store(m, w.addr, w.data)
  {
    if w.data == [] {
      StoreNothing(m, w.addr);
    } else {
      AddressOffset(id, w.addr);
      W.WriteStores(m, Cmd(BufferAddress(id, w.addr), |w.data|), writer, w.words, w.data);
    }
  }

  lemma {:induction false} StoreOk(d: Data, h: DataGhost, writer: Writer)
    requires BufferOk(d.buffer, h) && WritesOk(d.writes, h.stored, h.stream[h.stored - h.base..]) && d.writes != [] && WriteFits(d.writes[0])
    ensures BufferOk(WriteStep(d, writer).buffer, WriteNext(h, d))
    ensures var h' := WriteNext(h, d); WritesOk(d.writes[1..], h'.stored, h'.stream[h'.stored - h'.base..])
  {
    WritesPop(d.writes, h.stored, h.stream, h.stored - h.base);
    WrittenIs(d.id, d.buffer, d.writes[0], writer);
    StoreBuffer(d.buffer, h, d.writes[0].data);
  }

  /** A byte of the buffer is the one last stored there, the byte of position q exactly while that one is in place. */
  lemma {:induction false} LatestIs(stored: int, q: int)
    ensures Latest(stored, q) < stored <= Latest(stored, q) + BUFFER_SIZE && Mod18(Latest(stored, q)) == Mod18(q)
    ensures Latest(stored, q) == q <==> stored - BUFFER_SIZE <= q < stored
  {
    var d: int := stored - 1 - q;
    var k: int := d / BUFFER_SIZE;
    assert d == k * BUFFER_SIZE + Mod18(d);
    assert Latest(stored, q) == q + k * BUFFER_SIZE;
  }

  lemma {:induction false} FetchIsLatest(m: Buffer, h: DataGhost, pos: int, length: nat, i: nat)
    requires BufferOk(m, h) && i < length && h.base <= Latest(h.stored, pos + i)
    ensures Latest(h.stored, pos + i) - h.base < |h.stream|
    ensures Fetch(m, Mod18(pos), length)[i] == h.stream[Latest(h.stored, pos + i) - h.base]
  {
    LatestIs(h.stored, pos + i);
    assert Holds(m, h.base, h.stream, Latest(h.stored, pos + i) - h.base);
    Mod18Add(pos, i);
  }

  /** What a read returns: every byte of the range that is stored and not yet overwritten. */
  lemma {:induction false} FetchIsStream(m: Buffer, h: DataGhost, pos: int, length: nat, i: nat)
    requires BufferOk(m, h) && i < length && h.base <= pos + i < h.stored && h.stored - BUFFER_SIZE <= pos + i
    ensures Fetch(m, Mod18(pos), length)[i] == h.stream[pos + i - h.base]
  {
    LatestIs(h.stored, pos + i);
    FetchIsLatest(m, h, pos, length, i);
  }

  lemma {:induction false} FetchExact(m: Buffer, h: DataGhost, pos: int, length: nat)
    requires BufferOk(m, h) && h.base <= pos && h.stored - BUFFER_SIZE <= pos && pos + length <= h.stored
    ensures Fetch(m, Mod18(pos), length) == h.stream[pos - h.base .. pos - h.base + length]
  {
    forall i: nat | i < length ensures Fetch(m, Mod18(pos), length)[i] == h.stream[pos - h.base .. pos - h.base + length][i] {
      FetchIsStream(m, h, pos, length, i);
    }
  }

  lemma {:induction false} BytesAre(ws: seq<Word>, p: seq<Byte>)
    requires Packed(ws, p)
    ensures Bytes(ws, |p|) == p
  {
    var f := Flat(ws);
    forall i | 0 <= i < |p| ensures Bytes(ws, |p|)[i] == p[i] { assert LaneOk(f, p, i); }
  }

  /** The words of a read carry the range, in any session, if the commands are right. */
  lemma {:induction false} ReadIsFetch(d: Data, s: Segment, prev: Word)
    requires 0 < s.length && R.ReadsRight(BufferAddress(d.id, s.offset), s.length)
    ensures Packed(ReadWords(d, s, prev), Fetch(d.buffer, s.offset, s.length))
    ensures Bytes(ReadWords(d, s, prev), s.length) == Fetch(d.buffer, s.offset, s.length)
  {
    AddressOffset(d.id, s.offset);
    R.ReadReturns(d.buffer, BufferAddress(d.id, s.offset), s.length, prev);
    BytesAre(ReadWords(d, s, prev), Fetch(d.buffer, s.offset, s.length));
  }

  lemma {:induction false} WritesPush(writes: seq<Write>, pos: int, rest: seq<Byte>, data: Payload, words: seq<Word>)
    requires WritesOk(writes, pos, rest)
    ensures WritesOk(writes + [Write(Mod18(pos + |rest|), data, words)], pos, rest + data)
    decreases |writes|
  {
    var w := Write(Mod18(pos + |rest|), data, words);
    if writes == [] {
      assert rest + data == data && data[..|data|] == data;
      assert ([w])[1..] == [];
    } else {
      var n := |writes[0].data|;
      WritesPush(writes[1..], pos + n, rest[n..], data, words);
      assert (writes + [w])[1..] == writes[1..] + [w];
      assert (rest + data)[n..] == rest[n..] + data;
      assert (rest + data)[..n] == rest[..n];
    }
  }

  // ----- each label -----

  lemma {:induction false} BytesGrow(data: seq<Byte>, at: At, base: int, stream: seq<Byte>, more: seq<Byte>)
    requires BytesOk(data, at, base, stream)
    ensures BytesOk(data, at, base, stream + more)
  {
    forall x | 0 <= x < |data| ensures ByteOk(data, at, base, stream + more, x) { assert ByteOk(data, at, base, stream, x); }
  }

  lemma {:induction false} PacketGrow(id: SessionId, p: Packet, at: At, base: int, stream: seq<Byte>, more: seq<Byte>)
    requires PacketOk(id, p, at, base, stream)
    ensures PacketOk(id, p, at, base, stream + more)
  {
    if Readable(id, p.again, at) { BytesGrow(Bytes(p.words, at.len), at, base, stream, more); }
  }

  lemma {:induction false} SentGrow(id: SessionId, sent: seq<Packet>, at: seq<At>, base: int, stream: seq<Byte>, more: seq<Byte>)
    requires SentOk(id, sent, at, base, stream)
    ensures SentOk(id, sent, at, base, stream + more)
  {
    forall i | 0 <= i < |sent| ensures PacketOk(id, sent[i], at[i], base, stream + more) {
      assert PacketOk(id, sent[i], at[i], base, stream);
      PacketGrow(id, sent[i], at[i], base, stream, more);
    }
  }

  lemma {:induction false} SentPush(id: SessionId, sent: seq<Packet>, at: seq<At>, base: int, stream: seq<Byte>, p: Packet, a: At)
    requires SentOk(id, sent, at, base, stream) && PacketOk(id, p, a, base, stream)
    ensures SentOk(id, sent + [p], at + [a], base, stream)
  {
    forall i | 0 <= i <= |sent| ensures PacketOk(id, (sent + [p])[i], (at + [a])[i], base, stream) {
      if i < |sent| { assert PacketOk(id, sent[i], at[i], base, stream); }
    }
  }

  /** New data is the application's bytes at its position. */
  lemma {:induction false} NewPacketOk(id: SessionId, n: Seq32, words: seq<Word>, data: seq<Byte>, pos: int, base: int, stream: seq<Byte>)
    requires Packed(words, data) && n == Mod32(pos) && base <= pos && pos - base + |data| <= |stream| && |data| < 0x1_0000
    requires data == stream[pos - base .. pos - base + |data|]
    ensures PacketOk(id, Packet(n, words, false), NewAt(pos, |data|), base, stream)
  {
    BytesAre(words, data);
    var at := NewAt(pos, |data|);
    forall x | 0 <= x < |data| ensures ByteOk(data, at, base, stream, x) { LatestIs(at.stored, pos + x); }
  }

  /** A packet read back. */
  lemma {:induction false} AgainOk(d: Data, h: DataGhost, s: Segment, pos: int, acked: int, prev: Word)
    requires BufferOk(d.buffer, h) && ReadAtOk(s, pos, h.base, h.base + |h.stream|) && h.stored - BUFFER_SIZE <= acked
    ensures PacketOk(d.id, Packet(s.seqNumb, ReadWords(d, s, prev), true), At(pos, s.length, acked, h.stored), h.base, h.stream)
  {
    var at, words := At(pos, s.length, acked, h.stored), ReadWords(d, s, prev);
    if Readable(d.id, true, at) {
      ReadIsFetch(d, s, prev);
      FetchOk(d.buffer, h, at);
    }
  }

  lemma {:induction false} FetchOk(m: Buffer, h: DataGhost, at: At)
    requires BufferOk(m, h) && at.stored == h.stored
    ensures BytesOk(Fetch(m, Mod18(at.pos), at.len), at, h.base, h.stream)
  {
    var data := Fetch(m, Mod18(at.pos), at.len);
    forall x | 0 <= x < |data| ensures ByteOk(data, at, h.base, h.stream, x) {
      if h.base <= Latest(at.stored, at.pos + x) { FetchIsLatest(m, h, at.pos, at.len, x); }
    }
  }

  lemma {:induction false} ReadsPop(readCmds: seq<Segment>, at: seq<int>, base: int, end: int)
    requires ReadsOk(readCmds, at, base, end) && readCmds != []
    ensures ReadsOk(readCmds[1..], at[1..], base, end)
    ensures ReadAtOk(readCmds[0], at[0], base, end)
  {
    assert ReadAtOk(readCmds[0], at[0], base, end);
    forall i | 0 <= i < |readCmds| - 1 ensures ReadAtOk(readCmds[1..][i], at[1..][i], base, end) {
      assert ReadAtOk(readCmds[i + 1], at[i + 1], base, end);
    }
  }

  lemma {:induction false} ReadsPush(readCmds: seq<Segment>, at: seq<int>, base: int, end: int, r: Segment, pos: int)
    requires ReadsOk(readCmds, at, base, end) && ReadAtOk(r, pos, base, end)
    ensures ReadsOk(readCmds + [r], at + [pos], base, end)
  {
    forall i | 0 <= i <= |readCmds| ensures ReadAtOk((readCmds + [r])[i], (at + [pos])[i], base, end) {
      if i < |readCmds| { assert ReadAtOk(readCmds[i], at[i], base, end); }
    }
  }

  lemma {:induction false} ReadsGrow(readCmds: seq<Segment>, at: seq<int>, base: int, end: int, end': int)
    requires ReadsOk(readCmds, at, base, end) && end <= end'
    ensures ReadsOk(readCmds, at, base, end')
  {
    forall i | 0 <= i < |readCmds| ensures ReadAtOk(readCmds[i], at[i], base, end') {
      assert ReadAtOk(readCmds[i], at[i], base, end);
    }
  }

  lemma {:induction false} SliceGrow(stream: seq<Byte>, k: nat, more: seq<Byte>)
    requires k <= |stream|
    ensures (stream + more)[k..] == stream[k..] + more
  {}

  lemma {:induction false} SliceStep(stream: seq<Byte>, k: nat, n: nat)
    requires k + n <= |stream|
    ensures stream[k..][n..] == stream[k + n..] && stream[k..][..n] == stream[k .. k + n]
  {}

  lemma {:induction false} BufferGrow(m: Buffer, h: DataGhost, more: seq<Byte>)
    requires BufferOk(m, h)
    ensures BufferOk(m, h.(stream := h.stream + more))
  {
    forall k | 0 <= k < |h.stream + more| && h.base + k < h.stored <= h.base + k + BUFFER_SIZE
      ensures Holds(m, h.base, h.stream + more, k)
    {
      assert Holds(m, h.base, h.stream, k);
    }
  }

  lemma {:induction false} WordsPush(writes: seq<Write>, w: Write)
    requires WordsFit(writes) && WriteFits(w)
    ensures WordsFit(writes + [w])
  {
    forall i | 0 <= i <= |writes| ensures WriteFits((writes + [w])[i]) { if i < |writes| { assert WriteFits(writes[i]); } }
  }

  lemma {:induction false} AdmittedOk(d: Data, g: Ghost, h: DataGhost, payload: Payload, words: seq<Word>, length: Word16)
    requires DataOk(d, g, h) && (payload != [] ==> Packed(words, payload))
    ensures var l := Admitted(Mod18(g.written), length);
            DataOk(DataStep(d, l, payload, words), g.(written := g.written + |payload|), DataNext(h, g, l, payload))
  {
    WordsPush(d.writes, Write(Mod18(g.written), payload, words));
    WritesPush(d.writes, h.stored, h.stream[h.stored - h.base..], payload, words);
    SliceGrow(h.stream, h.stored - h.base, payload);
    SliceGrow(h.stream, g.eng.nextPending - h.base, payload);
    SentGrow(d.id, d.sent, h.sentAt, h.base, h.stream, payload);
    BufferGrow(d.buffer, h, payload);
  }

  lemma {:induction false} SentNewOk(d: Data, g: Ghost, h: DataGhost, n: Seq32, length: Word16, payload: Payload, words: seq<Word>)
    requires DataOk(d, g, h) && n == Mod32(g.eng.nextPending) && 0 < length && g.eng.nextPending + length <= g.written
    requires Packed(words, Take(d.bypass, length))
    ensures var l := Sent(n, length);
            DataOk(DataStep(d, l, payload, words), g.(eng := g.eng.(nextPending := g.eng.nextPending + length)), DataNext(h, g, l, payload))
  {
    SliceStep(h.stream, g.eng.nextPending - h.base, length);
    NewPacketOk(d.id, n, words, d.bypass[..length], g.eng.nextPending, h.base, h.stream);
    SentPush(d.id, d.sent, h.sentAt, h.base, h.stream, Packet(n, words, false), NewAt(g.eng.nextPending, length));
    ReadsGrow(d.readCmds, h.readAt, h.base, g.eng.nextPending, g.eng.nextPending + length);
  }

  lemma {:induction false} ReadBackOk(d: Data, g: Ghost, h: DataGhost, segs: seq<Segment>, payload: Payload, words: seq<Word>)
    requires DataOk(d, g, h) && |segs| <= 1
    requires |segs| == 1 ==> segs[0].seqNumb == Mod32(g.eng.rest) && segs[0].offset == Mod18(g.eng.rest)
                             && 0 < segs[0].length && g.eng.rest + segs[0].length <= g.eng.nextPending
    ensures DataOk(DataStep(d, ReadBack(segs), payload, words), g, DataNext(h, g, ReadBack(segs), payload))
  {
    if segs == [] {
      assert d.readCmds + segs == d.readCmds && h.readAt + [] == h.readAt;
    } else {
      ReadsPush(d.readCmds, h.readAt, h.base, g.eng.nextPending, segs[0], g.eng.rest);
      assert d.readCmds + segs == d.readCmds + [segs[0]];
      assert DataNext(h, g, ReadBack(segs), payload).readAt == h.readAt + [g.eng.rest];
    }
  }

  lemma {:induction false} ReadParts(d: Data, h: DataGhost, acked: int, next: int, prev: Word)
    requires BufferOk(d.buffer, h) && ReadsOk(d.readCmds, h.readAt, h.base, next) && SentOk(d.id, d.sent, h.sentAt, h.base, h.stream)
    requires d.readCmds != [] && h.stored - BUFFER_SIZE <= acked && next <= h.base + |h.stream|
    ensures var d', h' := ReadStep(d, prev), ReadNext(h, d, acked);
            ReadsOk(d'.readCmds, h'.readAt, h.base, next) && SentOk(d.id, d'.sent, h'.sentAt, h.base, h.stream)
  {
    var s, pos := d.readCmds[0], h.readAt[0];
    ReadsPop(d.readCmds, h.readAt, h.base, next);
    AgainOk(d, h, s, pos, acked, prev);
    SentPush(d.id, d.sent, h.sentAt, h.base, h.stream, Packet(s.seqNumb, ReadWords(d, s, prev), true), At(pos, s.length, acked, h.stored));
  }

  lemma {:induction false} ReadOk(d: Data, g: Ghost, h: DataGhost, prev: Word)
    requires DataOk(d, g, h) && d.readCmds != [] && g.written - g.rx.acked < BUFFER_SIZE
    ensures DataOk(ReadStep(d, prev), g, ReadNext(h, d, g.rx.acked))
  {
    ReadParts(d, h, g.rx.acked, g.eng.nextPending, prev);
  }

  // ----- every step -----

  lemma {:induction false} QuietOk(d: Data, g: Ghost, g': Ghost, h: DataGhost)
    requires DataOk(d, g, h) && g'.written == g.written && g'.eng.nextPending == g.eng.nextPending
    requires h.base <= g'.rx.acked && h.base <= g'.eng.rest
    ensures DataOk(d, g', h)
  {}

  /** How a window step with label l moves the counters the data path looks at. */
  predicate CountersOk(g: Ghost, h: Ghost, l: Label) {
    && g.rx.acked <= h.rx.acked
    && (h.eng.rest == g.eng.rest || h.eng.rest == g.rx.acked || h.eng.rest == g.eng.rest + MSS)
    && h.written == g.written + (if l.Admitted? then l.length else 0)
    && h.eng.nextPending == g.eng.nextPending + (if l.Sent? then l.length else 0)
  }

  lemma {:induction false} CountersStep(w: Win, g: Ghost, a: Action)
    requires Inv(w, g) && Acceptable(w, a)
    ensures CountersOk(g, TxWindow.Next(g, w, a), LabelOf(w, a))
  {}

  /** The label carries the positions of the unbounded counters. */
  predicate LabelOk(g: Ghost, l: Label) {
    match l
    case Quiet => true
    case Admitted(addr, _) => addr == Mod18(g.written)
    case Sent(n, length) => n == Mod32(g.eng.nextPending) && 0 < length && g.eng.nextPending + length <= g.written
    case ReadBack(segs) =>
      |segs| <= 1 && (|segs| == 1 ==>
        segs[0].seqNumb == Mod32(g.eng.rest) && segs[0].offset == Mod18(g.eng.rest) && 0 < segs[0].length
        && g.eng.rest + segs[0].length <= g.eng.nextPending)
  }

  lemma {:induction false} LabelsOk(w: Win, g: Ghost, a: Action)
    requires Inv(w, g)
    ensures LabelOk(g, LabelOf(w, a))
  {
    if LabelOf(w, a).ReadBack? { Mod18Of32(g.eng.rest); }
  }

  lemma {:induction false} LabelStepOk(d: Data, g: Ghost, g': Ghost, h: DataGhost, l: Label, payload: Payload, words: seq<Word>)
    requires DataOk(d, g, h) && CountersOk(g, g', l) && LabelOk(g, l) && WordsOk(d, l, payload, words)
    ensures DataOk(DataStep(d, l, payload, words), g', DataNext(h, g, l, payload))
  {
    var d', h' := DataStep(d, l, payload, words), DataNext(h, g, l, payload);
    match l
    case Quiet => QuietOk(d, g, g', h);
    case Admitted(addr, length) =>
      AdmittedOk(d, g, h, payload, words, length);
      QuietOk(d', g.(written := g.written + |payload|), g', h');
    case Sent(n, length) =>
      SentNewOk(d, g, h, n, length, payload, words);
      QuietOk(d', g.(eng := g.eng.(nextPending := g.eng.nextPending + length)), g', h');
    case ReadBack(segs) =>
      ReadBackOk(d, g, h, segs, payload, words);
      QuietOk(d', g, g', h');
  }

  lemma {:induction false} WindowStepOk(s: Sys, g: SysGhost, a: Action, payload: Payload, words: seq<Word>)
    requires SysInv(s, g) && Allowed(s, Window(a, payload, words))
    ensures SysInv(SysStep(s, Window(a, payload, words)), SysNext(g, s, Window(a, payload, words)))
  {
    InvStep(s.win, g.win, a);
    CountersStep(s.win, g.win, a);
    LabelsOk(s.win, g.win, a);
    LabelStepOk(s.data, g.win, TxWindow.Next(g.win, s.win, a), g.data, LabelOf(s.win, a), payload, words);
  }

  lemma {:induction false} WordsPop(writes: seq<Write>)
    requires WordsFit(writes) && writes != []
    ensures WriteFits(writes[0]) && WordsFit(writes[1..])
  {
    assert WriteFits(writes[0]);
    forall i | 0 <= i < |writes| - 1 ensures WriteFits(writes[1..][i]) { assert WriteFits(writes[i + 1]); }
  }

  lemma {:induction false} WriteBufferOk(d: Data, g: Ghost, h: DataGhost, writer: Writer)
    requires DataOk(d, g, h)
    ensures DataOk(WriteStep(d, writer), g, WriteNext(h, d))
  {
    if d.writes != [] {
      WordsPop(d.writes);
      StoreOk(d, h, writer);
    }
  }

  lemma {:induction false} ReadBufferOk(d: Data, g: Ghost, h: DataGhost, prev: Word)
    requires DataOk(d, g, h) && g.written - g.rx.acked < BUFFER_SIZE
    ensures DataOk(ReadStep(d, prev), g, ReadNext(h, d, g.rx.acked))
  {
    if d.readCmds != [] { ReadOk(d, g, h, prev); }
  }

  lemma {:induction false} StepOk(s: Sys, g: SysGhost, a: Step)
    requires SysInv(s, g) && Allowed(s, a)
    ensures SysInv(SysStep(s, a), SysNext(g, s, a))
  {
    match a
    case Window(b, payload, words) => WindowStepOk(s, g, b, payload, words);
    case WriteBuffer(writer) => WriteBufferOk(s.data, g.win, g.data, writer);
    case ReadBuffer(prev) =>
      Bounds(s.win, g.win);
      ReadBufferOk(s.data, g.win, g.data, prev);
  }

  // ----- what the invariant says of the packets -----

  /** One byte of one packet. */
  lemma {:induction false} SentByte(d: Data, h: DataGhost, i: nat, x: nat)
    requires SentOk(d.id, d.sent, h.sentAt, h.base, h.stream) && i < |d.sent| && x < h.sentAt[i].len
    requires Readable(d.id, d.sent[i].again, h.sentAt[i])
    ensures var p, at, q := d.sent[i], h.sentAt[i], h.sentAt[i].pos + x;
            && p.seqNumb == Mod32(at.pos) && Packed(p.words, Bytes(p.words, at.len)) && 0 <= q - h.base < |h.stream|
            && (h.base <= Latest(at.stored, q) ==>
                  Latest(at.stored, q) - h.base < |h.stream| && Bytes(p.words, at.len)[x] == h.stream[Latest(at.stored, q) - h.base])
            && (InPlace(at, q) ==> Bytes(p.words, at.len)[x] == h.stream[q - h.base])
  {
    var p, at := d.sent[i], h.sentAt[i];
    assert PacketOk(d.id, p, at, h.base, h.stream);
    assert ByteOk(Bytes(p.words, at.len), at, h.base, h.stream, x);
    LatestIs(at.stored, at.pos + x);
  }

  lemma {:induction false} SameByte(d: Data, h: DataGhost, i: nat, j: nat, x: nat, y: nat)
    requires SentOk(d.id, d.sent, h.sentAt, h.base, h.stream) && i < |d.sent| && j < |d.sent|
    requires x < h.sentAt[i].len && y < h.sentAt[j].len && h.sentAt[i].pos + x == h.sentAt[j].pos + y
    requires Readable(d.id, d.sent[i].again, h.sentAt[i]) && Readable(d.id, d.sent[j].again, h.sentAt[j])
    requires InPlace(h.sentAt[i], h.sentAt[i].pos + x) && InPlace(h.sentAt[j], h.sentAt[j].pos + y)
    ensures 0 <= h.sentAt[i].pos + x - h.base < |h.stream|
    ensures Bytes(d.sent[i].words, h.sentAt[i].len)[x] == Bytes(d.sent[j].words, h.sentAt[j].len)[y]
            == h.stream[h.sentAt[i].pos + x - h.base]
  {
    SentByte(d, h, i, x);
    SentByte(d, h, j, y);
  }

  lemma {:induction false} Places(d: Data, h: DataGhost, i: nat, x: nat)
    requires SentOk(d.id, d.sent, h.sentAt, h.base, h.stream) && i < |d.sent| && x < h.sentAt[i].len
    ensures var at, q := h.sentAt[i], h.sentAt[i].pos + x;
            && (!d.sent[i].again ==> InPlace(at, q)) && (at.acked <= q < at.stored ==> InPlace(at, q))
            && (InPlace(at, q) <==> Latest(at.stored, q) == q)
  {
    assert PacketOk(d.id, d.sent[i], h.sentAt[i], h.base, h.stream);
    LatestIs(h.sentAt[i].stored, h.sentAt[i].pos + x);
  }

  lemma {:induction false} ReadStepExact(d: Data, h: DataGhost, next: int, prev: Word, pos: int, c: Segment)
    requires BufferOk(d.buffer, h) && ReadsOk(d.readCmds, h.readAt, h.base, next) && next <= h.base + |h.stream|
    requires d.readCmds != [] && c == d.readCmds[0] && pos == h.readAt[0] && h.stored - BUFFER_SIZE <= pos && pos + c.length <= h.stored
    requires R.ReadsRight(BufferAddress(d.id, c.offset), c.length)
    ensures 0 <= pos - h.base && pos - h.base + c.length <= |h.stream|
    ensures ReadStep(d, prev).sent == d.sent + [Packet(Mod32(pos), ReadWords(d, c, prev), true)]
    ensures Packed(ReadWords(d, c, prev), h.stream[pos - h.base .. pos - h.base + c.length])
  {
    assert ReadAtOk(c, pos, h.base, next);
    ReadIsFetch(d, c, prev);
    FetchExact(d.buffer, h, pos, c.length);
  }

  lemma {:induction false} HeldByte(d: Data, g: Ghost, h: DataGhost, q: int)
    requires DataOk(d, g, h) && g.written - g.rx.acked < BUFFER_SIZE && g.rx.acked <= q < h.stored
    ensures 0 <= q - h.base < |h.stream| && d.buffer[Mod18(q)] == h.stream[q - h.base]
  {
    assert Holds(d.buffer, h.base, h.stream, q - h.base);
  }

  // ----- runs -----

  predicate SysInitial(s: Sys, g: SysGhost) {
    && Initial(s.win, g.win, g.data.base)
    && s.data == Data(s.data.id, s.data.buffer, [], [], [], [])
    && g.data == DataGhost(g.data.base, [], g.data.base, [], [])
  }

  /** The states of a run, the counters beside them, and the steps between them. */
  datatype Trace = Trace(states: seq<Sys>, counters: seq<SysGhost>, steps: seq<Step>)

  predicate Moves(r: Trace, i: int) {
    && 0 <= i < |r.steps| && i + 1 < |r.states| && i + 1 < |r.counters| && Allowed(r.states[i], r.steps[i])
    && r.states[i + 1] == SysStep(r.states[i], r.steps[i]) && r.counters[i + 1] == SysNext(r.counters[i], r.states[i], r.steps[i])
  }

  /** Any allowed steps, in any order, from a start. */
  predicate IsRun(r: Trace) {
    && |r.states| == |r.counters| == |r.steps| + 1 && SysInitial(r.states[0], r.counters[0])
    && forall i {:trigger Moves(r, i)} :: 0 <= i < |r.steps| ==> Moves(r, i)
  }

  lemma {:induction false} NoPackets(id: SessionId, base: int, end: int)
    ensures ReadsOk([], [], base, end) && SentOk(id, [], [], base, [])
  {}

  lemma {:induction false} NoData(m: Buffer, base: int)
    ensures BufferOk(m, DataGhost(base, [], base, [], [])) && WritesOk([], base, [])
  {}

  lemma {:induction false} DataInitialOk(id: SessionId, m: Buffer, g: Ghost, base: int)
    requires g.written == base && g.eng.nextPending == base && g.eng.rest == base && g.rx.acked == base
    ensures DataOk(Data(id, m, [], [], [], []), g, DataGhost(base, [], base, [], []))
  {
    NoPackets(id, base, base);
    NoData(m, base);
    var d, h := Data(id, m, [], [], [], []), DataGhost(base, [], base, [], []);
    assert h.stream[base - h.base..] == [];
    assert BufferOk(d.buffer, h) && WritesOk(d.writes, h.stored, h.stream[h.stored - h.base..]);
    assert ReadsOk(d.readCmds, h.readAt, h.base, g.eng.nextPending) && SentOk(d.id, d.sent, h.sentAt, h.base, h.stream);
  }

  lemma {:induction false} SysInitialInv(s: Sys, g: SysGhost)
    requires SysInitial(s, g)
    ensures SysInv(s, g)
  {
    InitialInv(s.win, g.win, g.data.base);
    DataInitialOk(s.data.id, s.data.buffer, g.win, g.data.base);
  }

  lemma {:induction false} SysInvRun(r: Trace, n: nat)
    requires IsRun(r) && n <= |r.steps|
    ensures SysInv(r.states[n], r.counters[n])
  {
    if n == 0 {
      SysInitialInv(r.states[0], r.counters[0]);
    } else {
      SysInvRun(r, n - 1);
      assert Moves(r, n - 1);
      StepOk(r.states[n - 1], r.counters[n - 1], r.steps[n - 1]);
    }
  }

  /** t and h are the state and the counters at the end of a run. */
  predicate Reached(r: Trace, t: Sys, h: SysGhost) { IsRun(r) && t == r.states[|r.steps|] && h == r.counters[|r.steps|] }

  lemma {:induction false} ReachedInv(r: Trace, t: Sys, h: SysGhost)
    requires Reached(r, t, h)
    ensures DataOk(t.data, h.win, h.data) && h.win.written - h.win.rx.acked < BUFFER_SIZE
  {
    SysInvRun(r, |r.steps|);
    Bounds(t.win, h.win);
  }

  lemma {:induction false} ReachedSent(r: Trace, t: Sys, h: SysGhost)
    requires Reached(r, t, h)
    ensures SentOk(t.data.id, t.data.sent, h.data.sentAt, h.data.base, h.data.stream)
  {
    ReachedInv(r, t, h);
  }

  /** An accepted byte that is stored stays at its sequence number modulo 2^WINDOW_BITS until it is acknowledged. */
  lemma {:induction false} BufferHoldsUnacked(r: Trace, t: Sys, h: SysGhost, q: int)
    requires Reached(r, t, h) && h.win.rx.acked <= q < h.data.stored
    ensures 0 <= q - h.data.base < |h.data.stream| && t.data.buffer[Mod18(q)] == h.data.stream[q - h.data.base]
  {
    ReachedInv(r, t, h);
    HeldByte(t.data, h.win, h.data, q);
  }

  /** What is in place for a packet of a run: for new data everything; for a packet read back every byte that was stored and not
      acknowledged at the read, and the acknowledged ones that were not overwritten. */
  lemma {:induction false} PlacesKnown(r: Trace, t: Sys, h: SysGhost, i: nat, x: nat)
    requires Reached(r, t, h)
    requires |t.data.sent| == |h.data.sentAt| && i < |t.data.sent| && x < h.data.sentAt[i].len
    ensures var at, q := h.data.sentAt[i], h.data.sentAt[i].pos + x;
            && (!t.data.sent[i].again ==> InPlace(at, q)) && (at.acked <= q < at.stored ==> InPlace(at, q))
            && (InPlace(at, q) <==> Latest(at.stored, q) == q)
  {
    ReachedSent(r, t, h);
    Places(t.data, h.data, i, x);
  }

  /** Byte x of a packet sent in a run, by the commands and words of the code: it is the byte the application wrote at the last
      position below the stored ones that shares its place in the buffer. */
  lemma {:induction false} ByteSent(r: Trace, t: Sys, h: SysGhost, i: nat, x: nat)
    requires Reached(r, t, h)
    requires |t.data.sent| == |h.data.sentAt| && i < |t.data.sent| && x < h.data.sentAt[i].len
    requires Readable(t.data.id, t.data.sent[i].again, h.data.sentAt[i])
    ensures var p, at, q := t.data.sent[i], h.data.sentAt[i], h.data.sentAt[i].pos + x;
            && p.seqNumb == Mod32(at.pos) && Packed(p.words, Bytes(p.words, at.len))
            && (h.data.base <= Latest(at.stored, q) ==>
                  Latest(at.stored, q) - h.data.base < |h.data.stream|
                  && Bytes(p.words, at.len)[x] == h.data.stream[Latest(at.stored, q) - h.data.base])
  {
    ReachedSent(r, t, h);
    SentByte(t.data, h.data, i, x);
  }

  /** Two packets sent in a run carry the same byte wherever they carry the same sequence position and the byte was in place for
      both, and that byte is the one the application wrote there. */
  lemma {:induction false} Fidelity(r: Trace, t: Sys, h: SysGhost, i: nat, j: nat, x: nat, y: nat)
    requires Reached(r, t, h)
    requires |t.data.sent| == |h.data.sentAt| && i < |t.data.sent| && j < |t.data.sent|
    requires x < h.data.sentAt[i].len && y < h.data.sentAt[j].len && h.data.sentAt[i].pos + x == h.data.sentAt[j].pos + y
    requires Readable(t.data.id, t.data.sent[i].again, h.data.sentAt[i]) && Readable(t.data.id, t.data.sent[j].again, h.data.sentAt[j])
    requires InPlace(h.data.sentAt[i], h.data.sentAt[i].pos + x) && InPlace(h.data.sentAt[j], h.data.sentAt[j].pos + y)
    ensures 0 <= h.data.sentAt[i].pos + x - h.data.base < |h.data.stream|
    ensures Bytes(t.data.sent[i].words, h.data.sentAt[i].len)[x] == Bytes(t.data.sent[j].words, h.data.sentAt[j].len)[y]
            == h.data.stream[h.data.sentAt[i].pos + x - h.data.base]
  {
    ReachedSent(r, t, h);
    SameByte(t.data, h.data, i, j, x, y);
  }

  /** A retransmission whose commands are right and that is read while its first byte is unacknowledged and its data is stored sends
      exactly the bytes of its sequence numbers. */
  lemma {:induction false} ReadBackExact(r: Trace, t: Sys, h: SysGhost, prev: Word)
    requires Reached(r, t, h) && t.data.readCmds != [] && h.data.readAt != []
    requires h.win.rx.acked <= h.data.readAt[0] && h.data.readAt[0] + t.data.readCmds[0].length <= h.data.stored
    requires R.ReadsRight(BufferAddress(t.data.id, t.data.readCmds[0].offset), t.data.readCmds[0].length)
    ensures var pos, c := h.data.readAt[0], t.data.readCmds[0];
            && 0 <= pos - h.data.base && pos - h.data.base + c.length <= |h.data.stream|
            && ReadStep(t.data, prev).sent == t.data.sent + [Packet(Mod32(pos), ReadWords(t.data, c, prev), true)]
            && Packed(ReadWords(t.data, c, prev), h.data.stream[pos - h.data.base .. pos - h.data.base + c.length])
  {
    ReachedInv(r, t, h);
    ReadStepExact(t.data, h.data, h.win.eng.nextPending, prev, h.data.readAt[0], t.data.readCmds[0]);
  }
}
