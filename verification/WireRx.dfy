/** The packet taken apart by the RX engine: rxEngPseudoHeaderInsert and rxEngGetMetaData, and the round trip with the TX engine. */
module WireRx {
  import opened ToeTypes
  import opened Words
  import opened WireTx

  function FromLe16(a: Byte, b: Byte): Word16 { a + b * 256 }
  function FromLe32(l: seq<Lane>, i: nat): Seq32
    requires i + 4 <= |l|
  {
    FromLe16(l[i].data, l[i + 1].data) + FromLe16(l[i + 2].data, l[i + 3].data) * 0x1_0000
  }
  function FromBe32(l: seq<Lane>, i: nat): Seq32
    requires i + 4 <= |l|
  {
    FromBe16(l[i].data, l[i + 1].data) * 0x1_0000 + FromBe16(l[i + 2].data, l[i + 3].data)
  }

  // ----- rxEngPseudoHeaderInsert -----

  function HeaderLength(w: Lanes): nat { w[0].data % 16 }
  function TotalLength(w: Lanes): Word16 { FromBe16(w[2].data, w[3].data) }

  /** keep_extra: how far the packet is moved. */
  function Move(ihl: nat): nat
    requires 5 <= ihl <= 15
  {
    8 + (ihl - 5) * 4
  }

  /** One lane that combine_words takes from the previous word. For header length 9 the keep slice starts at lane 36 instead
      of lane 24, and the missing bits read as zero. */
  function FromPrevious(prev: Lanes, ihl: nat, i: nat): Lane
    requires 5 <= ihl <= 15 && i < LANES - Move(ihl)
  {
    if ihl == 9 then Lane(prev[24 + i].data, i < 28 && prev[36 + i].keep) else prev[Move(ihl) + i]
  }

  function CombineWords(curr: Lanes, prev: Lanes, ihl: nat): Lanes
    requires 5 <= ihl <= 15
  {
    seq(LANES - Move(ihl), i requires 0 <= i < LANES - Move(ihl) => FromPrevious(prev, ihl, i)) + curr[..Move(ihl)]
  }

  lemma {:induction false} CombineIsShift(curr: Lanes, prev: Lanes, ihl: nat)
    requires 5 <= ihl <= 15 && ihl != 9
    ensures CombineWords(curr, prev, ihl) == prev[Move(ihl)..] + curr[..Move(ihl)]
  {}

  /** The pseudo header written over the first twelve lanes. */
  function WithPseudo(l: Lanes, p: seq<Byte>): Lanes
    requires |p| == 12
  {
    HeaderLanes(p)[..12] + l[12..]
  }

  function Overlaid(overlay: bool, l: Lanes, p: seq<Byte>): Lanes
    requires |p| == 12
  {
    if overlay then WithPseudo(l, p) else l
  }

  function PseudoOf(w: Lanes): (p: seq<Byte>)
    ensures |p| == 12
  {
    Pseudo(FromLe32(w, 12), FromLe32(w, 16), (TotalLength(w) - 4 * HeaderLength(w)) % 0x1_0000)
  }

  /** The words sent behind prev. */
  function Insert(prev: Lanes, xs: seq<Word>, ihl: nat): seq<Word>
    requires 5 <= ihl <= 15
    decreases |xs|
  {
    if xs == [] then [Word(CombineWords(Blank(LANES), prev, ihl), true)]
    else if |xs| == 1 && !xs[0].lanes[Move(ihl)].keep then [Word(CombineWords(xs[0].lanes, prev, ihl), true)]
    else [Word(CombineWords(xs[0].lanes, prev, ihl), false)] + Insert(xs[0].lanes, xs[1..], ihl)
  }

  function InsertPseudo(ws: seq<Word>): seq<Word>
    requires ws != [] && 5 <= HeaderLength(ws[0].lanes) <= 15
  {
    var ys := Insert(ws[0].lanes, ws[1..], HeaderLength(ws[0].lanes));
    [Word(WithPseudo(ys[0].lanes, PseudoOf(ws[0].lanes)), ys[0].last)] + ys[1..]
  }

  lemma {:induction false} InsertIsShift(prev: Lanes, xs: seq<Word>, ihl: nat)
    requires 5 <= ihl <= 15 && ihl != 9
    ensures Insert(prev, xs, ihl) == Shift(prev, xs, Move(ihl))
    decreases |xs|
  {
    if xs == [] {
      CombineIsShift(Blank(LANES), prev, ihl);
      assert Blank(LANES)[..Move(ihl)] == Blank(Move(ihl));
    } else {
      CombineIsShift(xs[0].lanes, prev, ihl);
      if !(|xs| == 1 && !xs[0].lanes[Move(ihl)].keep) {
        InsertIsShift(xs[0].lanes, xs[1..], ihl);
      }
    }
  }

  /** The first twelve bytes of a packet replaced. */
  lemma {:induction false} FrontReplaced(ys: seq<Word>, a: seq<Byte>, b: seq<Byte>, q: seq<Byte>)
    requires Packed(ys, a + q) && |a| == 12 && |b| == 12
    ensures Packed([Word(WithPseudo(ys[0].lanes, b), ys[0].last)] + ys[1..], b + q)
  {
    var zs := [Word(WithPseudo(ys[0].lanes, b), ys[0].last)] + ys[1..];
    FlatCons(zs[0], ys[1..]);
    FlatCons(ys[0], ys[1..]);
    assert [ys[0]] + ys[1..] == ys;
    HeaderCarries(b);
    forall i | 0 <= i < |zs| ensures LastAt(zs, i) { assert LastAt(ys, i); }
    forall i | 0 <= i < |Flat(zs)| ensures LaneOk(Flat(zs), b + q, i) {
      assert LaneOk(Flat(ys), a + q, i);
      if i < 12 {
        assert LaneOk(HeaderLanes(b), b, i);
      } else {
        assert Flat(zs)[i] == Flat(ys)[i];
      }
    }
  }

  /** Insert is what the steps behind the first word send, one after the other: a combined word, and an extra one exactly when the
      last word has a lane left. */
  lemma {:induction false} InsertUnrolls(prev: Lanes, xs: seq<Word>, ihl: nat)
    requires 5 <= ihl <= 15 && LastOnly(xs)
    ensures xs == [] ==> Insert(prev, xs, ihl) == [Word(CombineWords(Blank(LANES), prev, ihl), true)]
    ensures xs != [] ==>
              var more := xs[0].lanes[Move(ihl)].keep;
              var done := xs[0].last && !more;
              && (xs[0].last <==> |xs| == 1)
              && Insert(prev, xs, ihl)
                 == [Word(CombineWords(xs[0].lanes, prev, ihl), done)] + (if done then [] else Insert(xs[0].lanes, xs[1..], ihl))
  {
    if xs != [] { assert LastAt(xs, 0); }
  }

  /** A packet of one word: what FirstWord sends. */
  lemma {:induction false} InsertPseudoOne(w: Word)
    requires 5 <= HeaderLength(w.lanes) <= 15
    ensures InsertPseudo([w]) == [Word(WithPseudo(CombineWords(Blank(LANES), w.lanes, HeaderLength(w.lanes)), PseudoOf(w.lanes)), true)]
  {
    assert Insert(w.lanes, [], HeaderLength(w.lanes)) == [Word(CombineWords(Blank(LANES), w.lanes, HeaderLength(w.lanes)), true)];
  }

  /** A longer one: what NextWord sends for the second word x, with the pseudo header over it, and what follows. */
  lemma {:induction false} InsertPseudoMore(w: Word, x: Word, rest: seq<Word>, done: bool)
    requires 5 <= HeaderLength(w.lanes) <= 15 && LastOnly([x] + rest)
    requires done <==> x.last && !x.lanes[Move(HeaderLength(w.lanes))].keep
    ensures InsertPseudo([w] + ([x] + rest))
            == [Word(WithPseudo(CombineWords(x.lanes, w.lanes, HeaderLength(w.lanes)), PseudoOf(w.lanes)), done)]
               + (if done then [] else Insert(x.lanes, rest, HeaderLength(w.lanes)))
  {
    var xs := [x] + rest;
    InsertUnrolls(w.lanes, xs, HeaderLength(w.lanes));
    assert xs[1..] == rest && ([w] + xs)[1..] == xs;
    var y := Word(CombineWords(x.lanes, w.lanes, HeaderLength(w.lanes)), done);
    var ys := if done then [] else Insert(x.lanes, rest, HeaderLength(w.lanes));
    assert ([y] + ys)[1..] == ys;
  }

  /** An IP packet as the receiver needs it: a header of the length it names, and at least a TCP header behind it. */
  predicate IpPacket(pkt: seq<Byte>) {
    |pkt| >= 20 && 5 <= pkt[0] % 16 && |pkt| >= 4 * (pkt[0] % 16) + 20
  }

  /** The pseudo header read off an IP packet. */
  function PseudoOfPacket(pkt: seq<Byte>): (p: seq<Byte>)
    requires |pkt| >= 20
    ensures |p| == 12
  {
    var src, dst := FromLe16(pkt[12], pkt[13]) + FromLe16(pkt[14], pkt[15]) * 0x1_0000,
                    FromLe16(pkt[16], pkt[17]) + FromLe16(pkt[18], pkt[19]) * 0x1_0000;
    Pseudo(src, dst, (FromBe16(pkt[2], pkt[3]) - 4 * (pkt[0] % 16)) % 0x1_0000)
  }

  lemma {:induction false} FieldsOfFirst(ws: seq<Word>, pkt: seq<Byte>)
    requires Packed(ws, pkt) && IpPacket(pkt)
    ensures HeaderLength(ws[0].lanes) == pkt[0] % 16 && PseudoOf(ws[0].lanes) == PseudoOfPacket(pkt)
  {
    forall i: nat | i < 20 ensures ws[0].lanes[i].data == pkt[i] { FirstLane(ws, pkt, i); }
  }

  lemma {:induction false} InsertCarries(ws: seq<Word>, pkt: seq<Byte>)
    requires Packed(ws, pkt) && IpPacket(pkt) && pkt[0] % 16 != 9
    ensures HeaderLength(ws[0].lanes) == pkt[0] % 16
    ensures Packed(InsertPseudo(ws), PseudoOfPacket(pkt) + pkt[4 * (pkt[0] % 16)..])
  {
    var ihl := pkt[0] % 16;
    FieldsOfFirst(ws, pkt);
    InsertIsShift(ws[0].lanes, ws[1..], ihl);
    FrontDropped(ws, pkt, Move(ihl));
    var a, q := pkt[Move(ihl)..4 * ihl], pkt[4 * ihl..];
    assert pkt[Move(ihl)..] == a + q;
    FrontReplaced(Shift(ws[0].lanes, ws[1..], Move(ihl)), a, PseudoOfPacket(pkt), q);
  }

  /** With header length 9 lane 28 of the first word is never kept. */
  lemma {:induction false} NineLosesALane(ws: seq<Word>, pkt: seq<Byte>)
    requires Packed(ws, pkt) && IpPacket(pkt) && pkt[0] % 16 == 9
    ensures HeaderLength(ws[0].lanes) == 9
    ensures !Packed(InsertPseudo(ws), PseudoOfPacket(pkt) + pkt[36..])
  {
    FieldsOfFirst(ws, pkt);
    var zs, p := InsertPseudo(ws), PseudoOfPacket(pkt) + pkt[36..];
    var ys := Insert(ws[0].lanes, ws[1..], 9);
    assert !FromPrevious(ws[0].lanes, 9, 28).keep;
    assert !ys[0].lanes[28].keep;
    assert !zs[0].lanes[28].keep;
    if Packed(zs, p) { FirstLane(zs, p, 28); }
  }

  /** The pseudo header is inserted correctly exactly for the header lengths other than 9. */
  lemma {:induction false} InsertExactly(ws: seq<Word>, pkt: seq<Byte>)
    requires Packed(ws, pkt) && IpPacket(pkt)
    ensures HeaderLength(ws[0].lanes) == pkt[0] % 16
    ensures Packed(InsertPseudo(ws), PseudoOfPacket(pkt) + pkt[4 * (pkt[0] % 16)..]) <==> pkt[0] % 16 != 9
  {
    if pkt[0] % 16 == 9 { NineLosesALane(ws, pkt); } else { InsertCarries(ws, pkt); }
  }

  // ----- rxEngGetMetaData -----

  datatype RxMeta = RxMeta(
    tuple: FourTuple, seqNumb: Seq32, ackNumb: Seq32, winSize: Word16, length: Word16, flags: Byte, tcpOffset: Bits4)

  function ParseMeta(w: Lanes): RxMeta {
    var offset := w[24].data / 16;
    RxMeta(FourTuple(FromLe32(w, 0), FromLe32(w, 4), FromLe16(w[12].data, w[13].data), FromLe16(w[14].data, w[15].data)),
           FromBe32(w, 16), FromBe32(w, 20), FromBe16(w[26].data, w[27].data),
           (FromBe16(w[10].data, w[11].data) - 4 * offset) % 0x1_0000, w[25].data, offset)
  }

  /** byte_offset has 6 bits. */
  function ByteOffset(tcpOffset: Bits4): nat { (tcpOffset * 4 + 12) % 64 }

  /** The payload words of a pseudo packet, cut at lane k. */
  function PayloadAt(ws: seq<Word>, k: nat, length: nat): seq<Word>
    requires ws != [] && 0 < k < LANES
  {
    if |ws| == 1 && length == 0 then [] else Shift(ws[0].lanes, ws[1..], k)
  }

  function PayloadWords(ws: seq<Word>): seq<Word>
    requires ws != [] && 0 < ByteOffset(ParseMeta(ws[0].lanes).tcpOffset)
  {
    var m := ParseMeta(ws[0].lanes);
    PayloadAt(ws, ByteOffset(m.tcpOffset), m.length)
  }

  /** The offset the payload is cut at is the one the header names exactly up to a data offset of 12. */
  lemma {:induction false} ByteOffsetExactly(tcpOffset: Bits4)
    ensures ByteOffset(tcpOffset) == 4 * tcpOffset + 12 <==> tcpOffset <= 12
    ensures tcpOffset == 13 ==> ByteOffset(tcpOffset) == 0
  {}

  /** The fields of a pseudo packet's first 28 bytes. */
  function MetaOf(p: seq<Byte>): RxMeta
    requires |p| >= 32
  {
    var offset := p[24] / 16;
    RxMeta(FourTuple(FromLe16(p[0], p[1]) + FromLe16(p[2], p[3]) * 0x1_0000, FromLe16(p[4], p[5]) + FromLe16(p[6], p[7]) * 0x1_0000,
                     FromLe16(p[12], p[13]), FromLe16(p[14], p[15])),
           FromBe16(p[16], p[17]) * 0x1_0000 + FromBe16(p[18], p[19]), FromBe16(p[20], p[21]) * 0x1_0000 + FromBe16(p[22], p[23]),
           FromBe16(p[26], p[27]), (FromBe16(p[10], p[11]) - 4 * offset) % 0x1_0000, p[25], offset)
  }

  lemma {:induction false} ParseIsMetaOf(ws: seq<Word>, p: seq<Byte>)
    requires Packed(ws, p) && |p| >= 32
    ensures ParseMeta(ws[0].lanes) == MetaOf(p)
  {
    forall i: nat | i < 32 ensures ws[0].lanes[i].data == p[i] { FirstLane(ws, p, i); }
  }

  lemma {:induction false} PayloadCut(ws: seq<Word>, p: seq<Byte>, k: nat)
    requires Packed(ws, p) && 0 < k < LANES && k <= |p|
    ensures |p| > k ==> Packed(PayloadAt(ws, k, |p| - k), p[k..])
    ensures |p| == k ==> PayloadAt(ws, k, 0) == []
  {
    if |p| > k { FrontDropped(ws, p, k); }
  }

  /** A pseudo packet as it arrives: its length field counts, in 16 bits, what follows it. */
  predicate WholeSegment(p: seq<Byte>, offset: nat) {
    && |p| >= 32 && p[24] / 16 == offset && FromBe16(p[10], p[11]) == (|p| - 12) % 0x1_0000
    && 12 + 4 * offset <= |p| < 0x1_000C + 4 * offset
  }

  lemma {:induction false} LengthOf(p: seq<Byte>, offset: nat)
    requires WholeSegment(p, offset)
    ensures MetaOf(p).length == |p| - 12 - 4 * offset && MetaOf(p).tcpOffset == offset
  {
    LengthLeft(|p| - 12, 4 * offset);
  }

  lemma {:induction false} LengthLeft(n: nat, k: nat)
    requires k <= n < 0x1_0000 + k
    ensures (n % 0x1_0000 - k) % 0x1_0000 == n - k
  {
    var q: int := n / 0x1_0000;
    assert n % 0x1_0000 - k == (n - k) - q * 0x1_0000;
  }

  lemma {:induction false} PayloadWordsAre(ws: seq<Word>, offset: Bits4, length: Word16)
    requires ws != [] && offset <= 12 && ParseMeta(ws[0].lanes).tcpOffset == offset && ParseMeta(ws[0].lanes).length == length
    ensures PayloadWords(ws) == PayloadAt(ws, 12 + 4 * offset, length)
  {
    ByteOffsetExactly(offset);
  }

  /** For every data offset up to 12 the payload comes out well packed, and nothing comes out when there is none. */
  lemma {:induction false} PayloadExtracted(ws: seq<Word>, p: seq<Byte>, offset: Bits4)
    requires Packed(ws, p) && WholeSegment(p, offset) && offset <= 12
    ensures ParseMeta(ws[0].lanes) == MetaOf(p) && MetaOf(p).tcpOffset == offset && MetaOf(p).length == |p| - 12 - 4 * offset
    ensures 0 < ByteOffset(offset) && PayloadWords(ws) == PayloadAt(ws, ByteOffset(offset), |p| - 12 - 4 * offset)
    ensures |p| > 12 + 4 * offset ==> Packed(PayloadAt(ws, ByteOffset(offset), |p| - 12 - 4 * offset), p[12 + 4 * offset..])
    ensures |p| == 12 + 4 * offset ==> PayloadAt(ws, ByteOffset(offset), 0) == []
  {
    LengthOf(p, offset);
    ParseIsMetaOf(ws, p);
    ByteOffsetExactly(offset);
    PayloadWordsAre(ws, offset, MetaOf(p).length);
    PayloadCut(ws, p, 12 + 4 * offset);
  }

  // ----- exactly when the payload is right -----

  /** The words sent for a payload: none when it is empty. */
  predicate Extracted(out: seq<Word>, q: seq<Byte>) { if q == [] then out == [] else Packed(out, q) }

  lemma {:induction false} ShiftSends(prev: Lanes, xs: seq<Word>, k: nat)
    requires 0 < k < LANES
    ensures Shift(prev, xs, k) != []
  {}

  /** What is cut out at lane k are all the bytes from there on; it is right when those are the n bytes named. */
  lemma {:induction false} CutExactly(ws: seq<Word>, p: seq<Byte>, k: nat, at: nat, n: nat)
    requires Packed(ws, p) && 0 < k < LANES && k <= at && at + n <= |p|
    ensures Extracted(PayloadAt(ws, k, n), p[at..at + n]) <==> if n == 0 then |p| <= LANES else k == at && at + n == |p|
  {
    if n == 0 {
      ShiftSends(ws[0].lanes, ws[1..], k);
    } else {
      FrontDropped(ws, p, k);
      var out, q := PayloadAt(ws, k, n), p[at..at + n];
      if Packed(out, q) { CarriesLength(Flat(out), p[k..], q); }
      if k == at && at + n == |p| { assert p[k..] == q; }
    }
  }

  /** For every pseudo packet that holds at least the payload its length field names, with or without padding behind it, and every
      data offset but 13 (for which the offset is 0 and the code's slice bounds are not defined): the payload sent is the one named
      exactly when, for an empty one, there is a single word; for another, the data offset is at most 12 and nothing follows it. */
  lemma {:induction false} PayloadExactly(ws: seq<Word>, p: seq<Byte>, offset: Bits4, n: Word16)
    requires Packed(ws, p) && |p| >= 32 && p[24] / 16 == offset && offset != 13
    requires n == MetaOf(p).length && 12 + 4 * offset + n <= |p|
    ensures ParseMeta(ws[0].lanes) == MetaOf(p) && MetaOf(p).tcpOffset == offset && 0 < ByteOffset(offset)
    ensures Extracted(PayloadWords(ws), p[12 + 4 * offset..12 + 4 * offset + n])
            <==> if n == 0 then |p| <= LANES else offset <= 12 && |p| == 12 + 4 * offset + n
  {
    ParseIsMetaOf(ws, p);
    ByteOffsetExactly(offset);
    CutExactly(ws, p, ByteOffset(offset), 12 + 4 * offset, n);
  }

  lemma {:induction false} ShiftLastOnly(prev: Lanes, xs: seq<Word>, k: nat)
    requires 0 < k < LANES && LastOnly(xs)
    ensures LastOnly(Shift(prev, xs, k))
    decreases |xs|
  {
    if xs == [] {
      LastOnlyOne(Word(prev[k..] + Blank(k), true));
    } else if |xs| == 1 && !xs[0].lanes[k].keep {
      LastOnlyOne(Word(prev[k..] + xs[0].lanes[..k], true));
    } else {
      if |xs| > 1 { LastOnlyTail(xs); }
      ShiftLastOnly(xs[0].lanes, xs[1..], k);
      ShiftSends(xs[0].lanes, xs[1..], k);
      LastOnlyCons(Word(prev[k..] + xs[0].lanes[..k], false), Shift(xs[0].lanes, xs[1..], k));
    }
  }

  /** Words are sent exactly for a packet with payload or of more than one word: so, too, for an ACK without payload whose 40 bytes of
      options make it 72 bytes. They have one last flag. */
  lemma {:induction false} PayloadSentExactly(ws: seq<Word>, p: seq<Byte>, offset: Bits4)
    requires Packed(ws, p) && |p| >= 32 && p[24] / 16 == offset && offset != 13
    ensures ParseMeta(ws[0].lanes).tcpOffset == offset && 0 < ByteOffset(offset)
    ensures PayloadWords(ws) != [] <==> MetaOf(p).length != 0 || |p| > LANES
    ensures LastOnly(PayloadWords(ws))
  {
    ParseIsMetaOf(ws, p);
    ByteOffsetExactly(offset);
    ShiftSends(ws[0].lanes, ws[1..], ByteOffset(offset));
    if |ws| > 1 { LastOnlyTail(ws); }
    ShiftLastOnly(ws[0].lanes, ws[1..], ByteOffset(offset));
  }

  // ----- the round trip -----

  lemma {:induction false} Le16Back(x: Word16)
    ensures FromLe16(Le16(x)[0], Le16(x)[1]) == x && FromBe16(Be16(x)[0], Be16(x)[1]) == x
  {}

  lemma {:induction false} Le32Back(x: Seq32)
    ensures var b := Le32(x); |b| == 4 && FromLe16(b[0], b[1]) + FromLe16(b[2], b[3]) * 0x1_0000 == x
    ensures var b := Be32(x); |b| == 4 && FromBe16(b[0], b[1]) * 0x1_0000 + FromBe16(b[2], b[3]) == x
  {
    Le16Back(x % 0x1_0000);
    Le16Back(x / 0x1_0000);
  }

  /** The bytes of the TCP header that are read back. */
  lemma {:induction false} TcpHeaderBytes(t: FourTuple, m: TcpMeta)
    ensures var h := TcpHeader(t, m);
            && h[0..2] == Le16(t.srcPort) && h[2..4] == Le16(t.dstPort) && h[4..8] == Be32(m.seqNumb) && h[8..12] == Be32(m.ackNumb)
            && h[12] == 16 * DataOffset(m) && h[13] == Flags(m) && h[14..16] == Be16(m.windowSize) && h[18] == 0
  {}

  lemma {:induction false} PseudoBytes(srcIp: Seq32, dstIp: Seq32, tcpLength: Word16)
    ensures var p := Pseudo(srcIp, dstIp, tcpLength); p[0..4] == Le32(srcIp) && p[4..8] == Le32(dstIp) && p[10..12] == Be16(tcpLength)
  {}

  lemma {:induction false} IpHeaderBytes(srcIp: Seq32, dstIp: Seq32, length: Word16)
    ensures var p := IpHeader(srcIp, dstIp, length);
            && p[0] == 0x45 && p[2..4] == Be16((length + 40) % 0x1_0000) && p[12..16] == Le32(srcIp) && p[16..20] == Le32(dstIp)
  {}

  lemma {:induction false} LengthShift(length: Word16)
    ensures ((length + 40) % 0x1_0000 - 20) % 0x1_0000 == (length + 20) % 0x1_0000
  {}

  lemma {:induction false} AddressAt(pkt: seq<Byte>, ip: seq<Byte>, i: nat, address: Seq32)
    requires i + 4 <= |ip| <= |pkt| && pkt[..|ip|] == ip && ip[i..i + 4] == Le32(address)
    ensures FromLe16(pkt[i], pkt[i + 1]) + FromLe16(pkt[i + 2], pkt[i + 3]) * 0x1_0000 == address
  {
    assert ip[i..i + 4] == [pkt[i], pkt[i + 1], pkt[i + 2], pkt[i + 3]];
    Le32Back(address);
  }

  lemma {:induction false} HalfAt(pkt: seq<Byte>, ip: seq<Byte>, i: nat, half: Word16)
    requires i + 2 <= |ip| <= |pkt| && pkt[..|ip|] == ip && ip[i..i + 2] == Be16(half)
    ensures FromBe16(pkt[i], pkt[i + 1]) == half
  {
    assert ip[i..i + 2] == [pkt[i], pkt[i + 1]];
    Le16Back(half);
  }

  lemma {:induction false} PseudoOfPacketIs(pkt: seq<Byte>, srcIp: Seq32, dstIp: Seq32, total: Word16)
    requires |pkt| >= 20 && pkt[0] % 16 == 5 && FromBe16(pkt[2], pkt[3]) == total
    requires FromLe16(pkt[12], pkt[13]) + FromLe16(pkt[14], pkt[15]) * 0x1_0000 == srcIp
    requires FromLe16(pkt[16], pkt[17]) + FromLe16(pkt[18], pkt[19]) * 0x1_0000 == dstIp
    ensures PseudoOfPacket(pkt) == Pseudo(srcIp, dstIp, (total - 20) % 0x1_0000)
  {}

  /** The pseudo header read off a packet that starts with the IP header is the one the TX engine made. */
  lemma {:induction false} PseudoReadOff(pkt: seq<Byte>, srcIp: Seq32, dstIp: Seq32, length: Word16)
    requires |pkt| >= 20 && pkt[..20] == IpHeader(srcIp, dstIp, length)
    ensures pkt[0] % 16 == 5 && PseudoOfPacket(pkt) == Pseudo(srcIp, dstIp, (length + 20) % 0x1_0000)
  {
    var ip := IpHeader(srcIp, dstIp, length);
    IpHeaderBytes(srcIp, dstIp, length);
    assert pkt[0] == ip[0];
    HalfAt(pkt, ip, 2, (length + 40) % 0x1_0000);
    AddressAt(pkt, ip, 12, srcIp);
    AddressAt(pkt, ip, 16, dstIp);
    PseudoOfPacketIs(pkt, srcIp, dstIp, (length + 40) % 0x1_0000);
    LengthShift(length);
  }

  /** What the receiver is to find. */
  function Expected(t: FourTuple, m: TcpMeta, length: Word16): RxMeta {
    RxMeta(t, m.seqNumb, m.ackNumb, m.windowSize, length, Flags(m), DataOffset(m))
  }

  /** The metadata of the TX engine: a SYN counts its options, anything else its payload. */
  predicate TxMetaOk(m: TcpMeta, p: seq<Byte>) {
    if m.syn then p == [] && m.length == |Options(m)| else |p| == m.length
  }

  /** The segment behind the pseudo header, its checksum field set. */
  function Segment(t: FourTuple, m: TcpMeta, p: seq<Byte>, checksum: Word16): (q: seq<Byte>)
    ensures |q| == 4 * DataOffset(m) + |p|
  {
    TcpHeader(t, m)[16 := checksum / 256][17 := checksum % 256] + p
  }

  lemma {:induction false} PatchedSegment(t: FourTuple, m: TcpMeta, p: seq<Byte>, checksum: Word16)
    ensures var ip := IpHeader(t.srcIp, t.dstIp, m.length);
            var pkt := Patched(ip + TcpHeader(t, m) + p, checksum);
            pkt[..20] == ip && pkt[20..] == Segment(t, m, p, checksum)
  {
    TcpHeaderBytes(t, m);
  }

  lemma {:induction false} SegmentFields(t: FourTuple, m: TcpMeta, p: seq<Byte>, checksum: Word16)
    ensures var q := Segment(t, m, p, checksum);
            && q[0..2] == Le16(t.srcPort) && q[2..4] == Le16(t.dstPort) && q[4..8] == Be32(m.seqNumb) && q[8..12] == Be32(m.ackNumb)
            && q[12] == 16 * DataOffset(m) && q[13] == Flags(m) && q[14..16] == Be16(m.windowSize)
  {
    TcpHeaderBytes(t, m);
    var h, q := TcpHeader(t, m), Segment(t, m, p, checksum);
    assert q[0..2] == h[0..2] && q[2..4] == h[2..4] && q[4..8] == h[4..8] && q[8..12] == h[8..12] && q[14..16] == h[14..16];
  }

  lemma {:induction false} MetaReadBack(t: FourTuple, m: TcpMeta, p: seq<Byte>, checksum: Word16)
    requires TxMetaOk(m, p)
    ensures var q := Arrived(t, m, p, checksum);
            WholeSegment(q, DataOffset(m)) && MetaOf(q) == Expected(t, m, |p|)
  {
    var a, b := Pseudo(t.srcIp, t.dstIp, (m.length + 20) % 0x1_0000), Segment(t, m, p, checksum);
    var q := a + b;
    PseudoBytes(t.srcIp, t.dstIp, (m.length + 20) % 0x1_0000);
    SegmentFields(t, m, p, checksum);
    FieldsReadBack(q, a, b, t, m);
    LengthOf(q, DataOffset(m));
  }

  lemma {:induction false} FieldsReadBack(q: seq<Byte>, a: seq<Byte>, b: seq<Byte>, t: FourTuple, m: TcpMeta)
    requires |a| == 12 && |b| >= 20 && q == a + b
    requires a[0..4] == Le32(t.srcIp) && a[4..8] == Le32(t.dstIp) && a[10..12] == Be16((m.length + 20) % 0x1_0000)
    requires b[0..2] == Le16(t.srcPort) && b[2..4] == Le16(t.dstPort) && b[4..8] == Be32(m.seqNumb) && b[8..12] == Be32(m.ackNumb)
    requires b[12] == 16 * DataOffset(m) && b[13] == Flags(m) && b[14..16] == Be16(m.windowSize)
    ensures FromBe16(q[10], q[11]) == (m.length + 20) % 0x1_0000 && q[24] / 16 == DataOffset(m)
    ensures MetaOf(q).(length := 0) == Expected(t, m, 0)
  {
    assert a[0..4] == [q[0], q[1], q[2], q[3]] && a[4..8] == [q[4], q[5], q[6], q[7]] && a[10..12] == [q[10], q[11]];
    assert b[0..2] == [q[12], q[13]] && b[2..4] == [q[14], q[15]] && b[14..16] == [q[26], q[27]];
    assert b[4..8] == [q[16], q[17], q[18], q[19]] && b[8..12] == [q[20], q[21], q[22], q[23]];
    Le32Back(t.srcIp);
    Le32Back(t.dstIp);
    Le32Back(m.seqNumb);
    Le32Back(m.ackNumb);
    Le16Back(t.srcPort);
    Le16Back(t.dstPort);
    Le16Back(m.windowSize);
    Le16Back((m.length + 20) % 0x1_0000);
  }

  /** What the RX engine makes of a packet: its metadata and its payload words. */
  function Receive(ws: seq<Word>): (RxMeta, seq<Word>)
    requires ws != [] && 5 <= HeaderLength(ws[0].lanes) <= 15
    requires 0 < ByteOffset(ParseMeta(InsertPseudo(ws)[0].lanes).tcpOffset)
  {
    (ParseMeta(InsertPseudo(ws)[0].lanes), PayloadWords(InsertPseudo(ws)))
  }

  /** What the TX engine makes of metadata, addresses and payload words. */
  function Transmit(t: FourTuple, m: TcpMeta, payload: seq<Word>, checksum: Word16): seq<Word> {
    var pseudo := StitchPayload(Word(HeaderLanes(PseudoHeader(t, m)), true), HasPayload(m), payload);
    StitchIp(Word(HeaderLanes(IpHeader(t.srcIp, t.dstIp, m.length)), true), RemovePseudo(pseudo), checksum)
  }

  /** The pseudo packet that arrives at rxEngGetMetaData. */
  function Arrived(t: FourTuple, m: TcpMeta, p: seq<Byte>, checksum: Word16): seq<Byte> {
    Pseudo(t.srcIp, t.dstIp, (m.length + 20) % 0x1_0000) + Segment(t, m, p, checksum)
  }

  function Sent(t: FourTuple, m: TcpMeta, p: seq<Byte>, checksum: Word16): seq<Byte> {
    Patched(IpHeader(t.srcIp, t.dstIp, m.length) + TcpHeader(t, m) + p, checksum)
  }

  lemma {:induction false} SentIs(t: FourTuple, m: TcpMeta, p: seq<Byte>, checksum: Word16)
    ensures var pkt := Sent(t, m, p, checksum);
            IpPacket(pkt) && pkt[0] % 16 == 5 && PseudoOfPacket(pkt) + pkt[20..] == Arrived(t, m, p, checksum)
  {
    var pkt := Sent(t, m, p, checksum);
    PatchedSegment(t, m, p, checksum);
    PseudoReadOff(pkt, t.srcIp, t.dstIp, m.length);
  }

  lemma {:induction false} PacketArrives(t: FourTuple, m: TcpMeta, payload: seq<Word>, p: seq<Byte>, checksum: Word16)
    requires TxMetaOk(m, p) && (p != [] ==> Packed(payload, p))
    ensures var ws := Transmit(t, m, payload, checksum);
            ws != [] && HeaderLength(ws[0].lanes) == 5 && Packed(InsertPseudo(ws), Arrived(t, m, p, checksum))
  {
    PacketBuilt(t, m, payload, p, checksum);
    SentIs(t, m, p, checksum);
    InsertCarries(Transmit(t, m, payload, checksum), Sent(t, m, p, checksum));
  }

  lemma {:induction false} ArrivedIsRead(ys: seq<Word>, q: seq<Byte>, e: RxMeta, p: seq<Byte>)
    requires Packed(ys, q) && WholeSegment(q, e.tcpOffset) && MetaOf(q) == e && e.tcpOffset <= 12 && e.length == |p|
    requires |q| == 12 + 4 * e.tcpOffset + |p| && q[12 + 4 * e.tcpOffset..] == p
    ensures 0 < ByteOffset(ParseMeta(ys[0].lanes).tcpOffset) && ParseMeta(ys[0].lanes) == e
    ensures p != [] ==> Packed(PayloadWords(ys), p)
    ensures p == [] ==> PayloadWords(ys) == []
  {
    PayloadExtracted(ys, q, e.tcpOffset);
    ByteOffsetExactly(e.tcpOffset);
  }

  lemma {:induction false} ArrivedPayload(t: FourTuple, m: TcpMeta, p: seq<Byte>, checksum: Word16)
    ensures var q := Arrived(t, m, p, checksum);
            |q| == 12 + 4 * DataOffset(m) + |p| && q[12 + 4 * DataOffset(m)..] == p
  {}

  /** For every metadata, tuple and payload, whatever checksum is inserted: the packet the TX engine builds gives the RX engine
      the same addresses, ports, sequence and acknowledgement numbers, window, flags, length and payload bytes. */
  lemma {:induction false} WireRoundTrip(t: FourTuple, m: TcpMeta, payload: seq<Word>, p: seq<Byte>, checksum: Word16)
    requires TxMetaOk(m, p) && (p != [] ==> Packed(payload, p))
    ensures var ws := Transmit(t, m, payload, checksum);
            && ws != [] && HeaderLength(ws[0].lanes) == 5 && 0 < ByteOffset(ParseMeta(InsertPseudo(ws)[0].lanes).tcpOffset)
            && Receive(ws).0 == Expected(t, m, |p|)
            && (p != [] ==> Packed(Receive(ws).1, p))
            && (p == [] ==> Receive(ws).1 == [])
  {
    PacketArrives(t, m, payload, p, checksum);
    MetaReadBack(t, m, p, checksum);
    ArrivedPayload(t, m, p, checksum);
    ArrivedIsRead(InsertPseudo(Transmit(t, m, payload, checksum)), Arrived(t, m, p, checksum), Expected(t, m, |p|), p);
  }

  function Byte4(a: Byte, b: Byte, c: Byte, d: Byte): nat { 0x100_0000 * a + 0x1_0000 * b + 0x100 * c + d }

  lemma {:induction false} Be32Is(x: Seq32)
    ensures |Be32(x)| == 4 && Byte4(Be32(x)[0], Be32(x)[1], Be32(x)[2], Be32(x)[3]) == x
  {
    Le32Back(x);
  }

  /** The flags of a TCP header, from FIN as bit 0 to ACK as bit 4 (RFC 793, section 3.1). */
  lemma {:induction false} FlagBits(m: TcpMeta, f: Byte)
    requires f == Flags(m)
    ensures (f % 2 == 1 <==> m.fin) && (f / 2 % 2 == 1 <==> m.syn) && (f / 4 % 2 == 1 <==> m.rst)
    ensures f / 8 % 2 == 0 && (f / 16 % 2 == 1 <==> m.ack) && f / 32 == 0
  {}

  lemma {:induction false} FieldsOf(h: seq<Byte>, m: TcpMeta)
    requires |h| >= 20 && h[4..8] == Be32(m.seqNumb) && h[8..12] == Be32(m.ackNumb) && h[14..16] == Be16(m.windowSize)
    ensures Byte4(h[4], h[5], h[6], h[7]) == m.seqNumb && Byte4(h[8], h[9], h[10], h[11]) == m.ackNumb
    ensures FromBe16(h[14], h[15]) == m.windowSize
  {
    Be32Is(m.seqNumb);
    Be32Is(m.ackNumb);
    Le16Back(m.windowSize);
    assert h[4..8] == [h[4], h[5], h[6], h[7]] && h[8..12] == [h[8], h[9], h[10], h[11]] && h[14..16] == [h[14], h[15]];
  }

  /** The TCP header byte by byte, as RFC 793 section 3.1 lays it out: its length in words, then FlagBits, and in a SYN the maximum
      segment size (kind 2) and the window scale (kind 3). */
  lemma {:induction false} TcpLayout(t: FourTuple, m: TcpMeta, h: seq<Byte>)
    requires h == TcpHeader(t, m)
    ensures |h| >= 20 && Byte4(h[4], h[5], h[6], h[7]) == m.seqNumb && Byte4(h[8], h[9], h[10], h[11]) == m.ackNumb
    ensures 4 * (h[12] / 16) == |h| && h[12] % 16 == 0 && FromBe16(h[14], h[15]) == m.windowSize
    ensures h[13] == Flags(m) && h[16..20] == [0, 0, 0, 0]
  {
    TcpHeaderBytes(t, m);
    FieldsOf(h, m);
  }

  lemma {:induction false} OptionLayout(t: FourTuple, m: TcpMeta, h: seq<Byte>)
    requires h == TcpHeader(t, m)
    ensures m.syn ==> |h| >= 24 && h[20] == 2 && h[21] == 4 && FromBe16(h[22], h[23]) == 4096
    ensures m.syn ==> if m.rxWinShift == 0 then |h| == 24 else |h| == 28 && h[24] == 3 && h[25] == 3 && h[26] == m.rxWinShift && h[27] == 0
    ensures !m.syn ==> |h| == 20
  {
    assert h[20..] == Options(m);
    if m.syn { assert h[20] == h[20..][0] && h[21] == h[20..][1] && h[22] == h[20..][2] && h[23] == h[20..][3]; }
    if m.syn && m.rxWinShift != 0 {
      assert h[24] == h[20..][4] && h[25] == h[20..][5] && h[26] == h[20..][6] && h[27] == h[20..][7];
    }
  }

  /** The IPv4 header (RFC 791 section 3.1): version 4 with 5 words, the length of the whole packet, and TCP as protocol 6. */
  lemma {:induction false} IpLayout(t: FourTuple, m: TcpMeta, p: seq<Byte>)
    requires TxMetaOk(m, p)
    ensures var h := IpHeader(t.srcIp, t.dstIp, m.length);
            && h[0] == 4 * 16 + 5 && h[1] == 0 && FromBe16(h[2], h[3]) == (20 + 4 * DataOffset(m) + |p|) % 0x1_0000
            && h[4..8] == [0, 0, 0, 0] && h[8] == 64 && h[9] == 6 && h[10..12] == [0, 0]
            && FromLe16(h[12], h[13]) + 0x1_0000 * FromLe16(h[14], h[15]) == t.srcIp
            && FromLe16(h[16], h[17]) + 0x1_0000 * FromLe16(h[18], h[19]) == t.dstIp
  {
    var h := IpHeader(t.srcIp, t.dstIp, m.length);
    IpHeaderBytes(t.srcIp, t.dstIp, m.length);
    HalfAt(h, h, 2, (m.length + 40) % 0x1_0000);
    AddressAt(h, h, 12, t.srcIp);
    AddressAt(h, h, 16, t.dstIp);
  }

  /** The pseudo header (RFC 793 section 3.1): addresses, zero, protocol 6, and the length of header and payload. */
  lemma {:induction false} PseudoLayout(t: FourTuple, m: TcpMeta, p: seq<Byte>)
    requires TxMetaOk(m, p)
    ensures var h := Pseudo(t.srcIp, t.dstIp, (m.length + 20) % 0x1_0000);
            && h[8] == 0 && h[9] == 6 && FromBe16(h[10], h[11]) == (4 * DataOffset(m) + |p|) % 0x1_0000
            && FromLe16(h[0], h[1]) + 0x1_0000 * FromLe16(h[2], h[3]) == t.srcIp
            && FromLe16(h[4], h[5]) + 0x1_0000 * FromLe16(h[6], h[7]) == t.dstIp
  {
    var h := Pseudo(t.srcIp, t.dstIp, (m.length + 20) % 0x1_0000);
    PseudoBytes(t.srcIp, t.dstIp, (m.length + 20) % 0x1_0000);
    HalfAt(h, h, 10, (m.length + 20) % 0x1_0000);
    AddressAt(h, h, 0, t.srcIp);
    AddressAt(h, h, 4, t.dstIp);
  }

  /** The receiver finds metadata e and payload p in a packet. */
  predicate ReadAs(ws: seq<Word>, e: RxMeta, p: seq<Byte>) {
    && ws != [] && HeaderLength(ws[0].lanes) == 5 && 0 < ByteOffset(ParseMeta(InsertPseudo(ws)[0].lanes).tcpOffset)
    && Receive(ws).0 == e && (if p == [] then Receive(ws).1 == [] else Packed(Receive(ws).1, p))
  }

  lemma {:induction false} TransmittedReadAs(t: FourTuple, m: TcpMeta, payload: seq<Word>, p: seq<Byte>, checksum: Word16)
    requires TxMetaOk(m, p) && (p != [] ==> Packed(payload, p))
    ensures ReadAs(Transmit(t, m, payload, checksum), Expected(t, m, |p|), p)
  {
    WireRoundTrip(t, m, payload, p, checksum);
  }

  // ----- the processes -----

  class RxEngPseudoHeaderInsert {
    var flushing: bool
    var firstDone: bool
    var pseudoHeader: bool
    var prevWord: Lanes
    var headerLen: nat
    var totalLen: Word16
    var ipSrc: Seq32
    var ipDst: Seq32
    var dataIn: seq<Word>
    var dataOut: seq<Word>

    /** Between packets, or behind a first word whose fields the static variables hold. */
    ghost predicate Valid() reads this {
      firstDone ==> 5 <= headerLen <= 15
    }

    function PseudoHere(): (p: seq<Byte>)
      reads `ipSrc, `ipDst, `totalLen, `headerLen
      ensures |p| == 12
    {
      Pseudo(ipSrc, ipDst, (totalLen - 4 * headerLen) % 0x1_0000)
    }

    method ReadFields(w: Lanes)
      modifies `headerLen, `totalLen, `ipSrc, `ipDst
      ensures headerLen == HeaderLength(w) && totalLen == TotalLength(w) && ipSrc == FromLe32(w, 12) && ipDst == FromLe32(w, 16)
    {
      headerLen := w[0].data % 16;
      totalLen := FromBe16(w[2].data, w[3].data);
      ipSrc, ipDst := FromLe32(w, 12), FromLe32(w, 16);
    }

    /** IP_HEADER: the fields of the first word; a packet of one word goes out at once. */
    method FirstWord()
      requires Valid() && !firstDone && !flushing && dataIn != [] && 5 <= HeaderLength(dataIn[0].lanes) <= 15
      modifies this
      ensures dataIn == old(dataIn)[1..] && prevWord == old(dataIn[0]).lanes && headerLen == HeaderLength(prevWord)
      ensures totalLen == TotalLength(prevWord) && ipSrc == FromLe32(prevWord, 12) && ipDst == FromLe32(prevWord, 16)
      ensures firstDone == !old(dataIn[0]).last && pseudoHeader == firstDone
      ensures dataOut == old(dataOut) + if firstDone then [] else [Word(WithPseudo(CombineWords(Blank(LANES), prevWord, headerLen), PseudoHere()), true)]
    {
      var currWord := dataIn[0];
      dataIn := dataIn[1..];
      ReadFields(currWord.lanes);
      prevWord := currWord.lanes;
      firstDone, pseudoHeader := !currWord.last, !currWord.last;
      if currWord.last {
        var sendLanes := CombineWords(Blank(LANES), prevWord, headerLen);
        dataOut := dataOut + [Word(WithPseudo(sendLanes, PseudoHere()), true)];
      }
    }

    /** A word is sent; over the first one goes the pseudo header. */
    method Send(lanes: Lanes, last: bool)
      modifies `pseudoHeader, `dataOut
      ensures !pseudoHeader && dataOut == old(dataOut) + [Word(Overlaid(old(pseudoHeader), lanes, PseudoHere()), last)]
    {
      var sendLanes := lanes;
      if pseudoHeader {
        sendLanes := WithPseudo(lanes, PseudoHere());
        pseudoHeader := false;
      }
      dataOut := dataOut + [Word(sendLanes, last)];
    }

    /** The state behind an input word, and the last flag of the word sent for it. */
    method Advance(currWord: Word) returns (last: bool)
      requires Valid() && firstDone && !flushing
      modifies `flushing, `firstDone
      ensures var more := currWord.lanes[Move(headerLen)].keep;
              && flushing == (currWord.last && more) && firstDone == (!currWord.last || more) && last == (currWord.last && !more)
    {
      last := false;
      if currWord.last {
        if currWord.lanes[Move(headerLen)].keep {
          flushing := true;
        } else {
          last := true;
          firstDone := false;
        }
      }
    }

    /** TCP_PAYLOAD: one realigned word. */
    method NextWord()
      requires Valid() && firstDone && !flushing && dataIn != []
      modifies this
      ensures dataIn == old(dataIn)[1..] && prevWord == old(dataIn[0]).lanes && headerLen == old(headerLen) && !pseudoHeader
      ensures var more := old(dataIn[0]).lanes[Move(headerLen)].keep;
              flushing == (old(dataIn[0]).last && more) && firstDone == (!old(dataIn[0]).last || more)
      ensures var lanes := CombineWords(old(dataIn[0]).lanes, old(prevWord), headerLen);
              dataOut == old(dataOut) + [Word(Overlaid(old(pseudoHeader), lanes, old(PseudoHere())),
                                              old(dataIn[0]).last && !old(dataIn[0]).lanes[Move(headerLen)].keep)]
    {
      var currWord := dataIn[0];
      dataIn := dataIn[1..];
      var combined := CombineWords(currWord.lanes, prevWord, headerLen);
      var last := Advance(currWord);
      Send(combined, last);
      prevWord := currWord.lanes;
    }

    method ExtraWord()
      requires Valid() && firstDone && flushing
      modifies `flushing, `firstDone, `dataOut
      ensures Valid() && !firstDone && !flushing && dataOut == old(dataOut) + Insert(prevWord, [], headerLen)
    {
      dataOut := dataOut + [Word(CombineWords(Blank(LANES), prevWord, headerLen), true)];
      flushing, firstDone := false, false;
    }
  }

  class RxEngGetMetaData {
    var busy: bool
    var flushing: bool
    var prevWord: Lanes
    var byteOffset: nat
    var dataIn: seq<Word>
    var metaOut: seq<RxMeta>
    var payload: seq<Word>

    ghost predicate Valid() reads this { 0 < byteOffset < LANES }

    /** FIRST_WORD: the metadata; the payload of a packet of one word. */
    method FirstWord()
      requires !busy && !flushing && dataIn != [] && 0 < ByteOffset(ParseMeta(dataIn[0].lanes).tcpOffset)
      modifies this
      ensures Valid() && dataIn == old(dataIn)[1..] && metaOut == old(metaOut) + [ParseMeta(old(dataIn[0]).lanes)]
      ensures prevWord == old(dataIn[0]).lanes && byteOffset == ByteOffset(ParseMeta(prevWord).tcpOffset) && busy == !old(dataIn[0]).last
      ensures !flushing && payload == old(payload) + if old(dataIn[0]).last then PayloadWords([old(dataIn[0])]) else []
    {
      var currWord := dataIn[0];
      dataIn := dataIn[1..];
      var meta := ParseMeta(currWord.lanes);
      byteOffset := (meta.tcpOffset * 4 + 12) % 64;
      if currWord.last && meta.length != 0 {
        payload := payload + [FlushWord(currWord.lanes, byteOffset)];
      }
      busy := !currWord.last;
      prevWord := currWord.lanes;
      metaOut := metaOut + [meta];
    }

    /** REMAINING_WORDS: one word of the realigned payload. */
    method NextWord()
      requires Valid() && busy && !flushing && dataIn != []
      modifies this
      ensures Valid() && dataIn == old(dataIn)[1..] && prevWord == old(dataIn[0]).lanes && byteOffset == old(byteOffset)
      ensures var (y, next) := ShiftWord(old(prevWord), old(dataIn[0]), byteOffset);
              payload == old(payload) + [y] && busy == !next.Finished? && flushing == next.Flush? && metaOut == old(metaOut)
    {
      var currWord := dataIn[0];
      dataIn := dataIn[1..];
      var last := false;
      if currWord.last {
        if currWord.lanes[byteOffset].keep {
          flushing := true;
        } else {
          last := true;
          busy := false;
        }
      }
      payload := payload + [Word(prevWord[byteOffset..] + currWord.lanes[..byteOffset], last)];
      prevWord := currWord.lanes;
    }

    method ExtraWord()
      requires Valid() && busy && flushing
      modifies `busy, `flushing, `payload
      ensures !busy && !flushing && payload == old(payload) + [FlushWord(prevWord, byteOffset)]
    {
      payload := payload + [Word(prevWord[byteOffset..] + Blank(byteOffset), true)];
      busy, flushing := false, false;
    }
  }
}
