/** The packet built by the TX engine: txEng_pseudoHeader_Const, txEng_payload_stitcher, txEng_PseudoHeader_Remover,
    txEng_ipHeader_Const and txEng_ip_pkt_stitcher. */
module WireTx {
  import opened ToeTypes
  import opened Words

  datatype TcpMeta = TcpMeta(
    seqNumb: Seq32, ackNumb: Seq32, windowSize: Word16, rxWinShift: Bits4, length: Word16, ack: bool, rst: bool, syn: bool, fin: bool)

  // ----- bytes -----

  function Le16(x: Word16): seq<Byte> { [x % 256, x / 256] }
  function Be16(x: Word16): seq<Byte> { [x / 256, x % 256] }
  function Le32(x: Seq32): seq<Byte> { Le16(x % 0x1_0000) + Le16(x / 0x1_0000) }
  function Be32(x: Seq32): seq<Byte> { Be16(x / 0x1_0000) + Be16(x % 0x1_0000) }
  function Bit(b: bool): nat { if b then 1 else 0 }

  // ----- header words -----

  function DataOffset(m: TcpMeta): nat { if !m.syn then 5 else if m.rxWinShift != 0 then 7 else 6 }

  function Flags(m: TcpMeta): Byte { Bit(m.fin) + 2 * Bit(m.syn) + 4 * Bit(m.rst) + 16 * Bit(m.ack) }

  function Options(m: TcpMeta): seq<Byte> {
    if !m.syn then [] else [2, 4] + Be16(MSS) + if m.rxWinShift != 0 then [3, 3, m.rxWinShift, 0] else []
  }

  /** The pseudo header of RFC 793 section 3.1. */
  function Pseudo(srcIp: Seq32, dstIp: Seq32, tcpLength: Word16): (p: seq<Byte>)
    ensures |p| == 12
  {
    Le32(srcIp) + Le32(dstIp) + [0, 6] + Be16(tcpLength)
  }

  /** The TCP header, its checksum zero. */
  function TcpHeader(t: FourTuple, m: TcpMeta): (h: seq<Byte>)
    ensures |h| == 4 * DataOffset(m)
  {
    Le16(t.srcPort) + Le16(t.dstPort) + Be32(m.seqNumb) + Be32(m.ackNumb) + [16 * DataOffset(m), Flags(m)] + Be16(m.windowSize)
    + [0, 0, 0, 0] + Options(m)
  }

  function PseudoHeader(t: FourTuple, m: TcpMeta): (p: seq<Byte>)
    ensures |p| == 12 + 4 * DataOffset(m)
  {
    Pseudo(t.srcIp, t.dstIp, (m.length + 20) % 0x1_0000) + TcpHeader(t, m)
  }

  predicate HasPayload(m: TcpMeta) { m.length != 0 && !m.syn }

  /** The IPv4 header of RFC 791 section 3.1, its checksum zero. */
  function IpHeader(srcIp: Seq32, dstIp: Seq32, length: Word16): (p: seq<Byte>)
    ensures |p| == 20
  {
    [0x45, 0] + Be16((length + 40) % 0x1_0000) + [0, 0, 0, 0, 0x40, 6, 0, 0] + Le32(srcIp) + Le32(dstIp)
  }

  /** A word holding a header. */
  function HeaderLanes(h: seq<Byte>): Lanes
    requires |h| <= LANES
  {
    seq(LANES, i requires 0 <= i < LANES => if i < |h| then Lane(h[i], true) else EMPTY)
  }

  lemma {:induction false} HeaderCarries(h: seq<Byte>)
    requires |h| <= LANES
    ensures Carries(HeaderLanes(h), h) && Carries(HeaderLanes(h)[..|h|], h)
  {
    assert Carries(HeaderLanes(h), h);
    CarriesPrefix(HeaderLanes(h), h, |h|);
    assert h[..|h|] == h;
  }

  // ----- the stitchers, packet by packet -----

  /** txEng_payload_stitcher. */
  function StitchPayload(header: Word, hasPayload: bool, payload: seq<Word>): seq<Word> {
    if !hasPayload then [header] else Shift(Held(header.lanes, 32), payload, 32)
  }

  /** txEng_PseudoHeader_Remover. */
  function RemovePseudo(ws: seq<Word>): seq<Word>
    requires ws != []
  {
    Shift(ws[0].lanes, ws[1..], 12)
  }

  /** The checksum goes into lanes 36 and 37; the assignment reaches one bit further, into lane 38. */
  function InsertChecksum(l: Lanes, checksum: Word16): Lanes {
    l[36 := l[36].(data := checksum / 256)][37 := l[37].(data := checksum % 256)][38 := l[38].(data := l[38].data - l[38].data % 2)]
  }

  /** txEng_ip_pkt_stitcher. */
  function StitchIp(ip: Word, ws: seq<Word>, checksum: Word16): seq<Word>
    requires ws != []
  {
    var ys := Shift(Held(ip.lanes, 20), ws, 44);
    [Word(InsertChecksum(ys[0].lanes, checksum), ys[0].last)] + ys[1..]
  }

  // ----- what the packets carry -----

  /** The pseudo packet: pseudo header, TCP header and payload. */
  lemma {:induction false} PseudoStitched(t: FourTuple, m: TcpMeta, payload: seq<Word>, p: seq<Byte>)
    requires HasPayload(m) ==> Packed(payload, p)
    requires !HasPayload(m) ==> p == []
    ensures Packed(StitchPayload(Word(HeaderLanes(PseudoHeader(t, m)), true), HasPayload(m), payload), PseudoHeader(t, m) + p)
  {
    var h := PseudoHeader(t, m);
    var w := Word(HeaderLanes(h), true);
    HeaderCarries(h);
    if HasPayload(m) {
      HeaderInFront(w.lanes, h, payload, p);
    } else {
      assert h + p == h;
      FlatOne(w);
      LastOnlyOne(w);
    }
  }

  lemma {:induction false} SegmentIs(t: FourTuple, m: TcpMeta, p: seq<Byte>)
    ensures (PseudoHeader(t, m) + p)[12..] == TcpHeader(t, m) + p
  {
    var a, b := Pseudo(t.srcIp, t.dstIp, (m.length + 20) % 0x1_0000), TcpHeader(t, m);
    assert (a + b + p)[12..] == b + p;
  }

  function Patched(p: seq<Byte>, checksum: Word16): seq<Byte>
    requires |p| > 38
  {
    p[36 := checksum / 256][37 := checksum % 256][38 := p[38] - p[38] % 2]
  }

  lemma {:induction false} PatchedPacked(ys: seq<Word>, p: seq<Byte>, checksum: Word16)
    requires Packed(ys, p) && |p| > 38
    ensures Packed([Word(InsertChecksum(ys[0].lanes, checksum), ys[0].last)] + ys[1..], Patched(p, checksum))
  {
    var zs, q := [Word(InsertChecksum(ys[0].lanes, checksum), ys[0].last)] + ys[1..], Patched(p, checksum);
    FlatCons(zs[0], ys[1..]);
    FlatCons(ys[0], ys[1..]);
    assert [ys[0]] + ys[1..] == ys;
    forall i | 0 <= i < |zs| ensures LastAt(zs, i) { assert LastAt(ys, i); }
    forall i | 0 <= i < |Flat(zs)| ensures LaneOk(Flat(zs), q, i) {
      assert LaneOk(Flat(ys), p, i);
      assert Flat(zs)[i] == if i < LANES then zs[0].lanes[i] else Flat(ys)[i];
    }
  }

  /** The whole packet: what txEng_ip_pkt_stitcher sends is the IP header, the TCP header with the checksum in place, and the
      payload. */
  lemma {:induction false} PacketBuilt(t: FourTuple, m: TcpMeta, payload: seq<Word>, p: seq<Byte>, checksum: Word16)
    requires HasPayload(m) ==> Packed(payload, p)
    requires !HasPayload(m) ==> p == []
    ensures var pseudo := StitchPayload(Word(HeaderLanes(PseudoHeader(t, m)), true), HasPayload(m), payload);
            pseudo != [] && RemovePseudo(pseudo) != []
            && Packed(StitchIp(Word(HeaderLanes(IpHeader(t.srcIp, t.dstIp, m.length)), true), RemovePseudo(pseudo), checksum),
                      Patched(IpHeader(t.srcIp, t.dstIp, m.length) + TcpHeader(t, m) + p, checksum))
  {
    var pseudo := StitchPayload(Word(HeaderLanes(PseudoHeader(t, m)), true), HasPayload(m), payload);
    var ip := IpHeader(t.srcIp, t.dstIp, m.length);
    PseudoStitched(t, m, payload, p);
    SegmentIs(t, m, p);
    FrontDropped(pseudo, PseudoHeader(t, m) + p, 12);
    HeaderCarries(ip);
    HeaderInFront(HeaderLanes(ip), ip, RemovePseudo(pseudo), TcpHeader(t, m) + p);
    assert ip + (TcpHeader(t, m) + p) == ip + TcpHeader(t, m) + p;
    PatchedPacked(Shift(Held(HeaderLanes(ip), 20), RemovePseudo(pseudo), 44), ip + TcpHeader(t, m) + p, checksum);
  }

  // ----- the stitchers, word by word -----

  datatype StitchState = ReadFirst | ReadPayload | ExtraWord

  class TxEngPayloadStitcher {
    var state: StitchState
    var held: Lanes
    var headers: seq<Word>
    var withPayload: seq<bool>
    var dataIn: seq<Word>
    var dataOut: seq<Word>

    method ReadPseudo()
      requires state.ReadFirst? && headers != [] && withPayload != []
      modifies this
      ensures headers == old(headers)[1..] && withPayload == old(withPayload)[1..] && dataIn == old(dataIn)
      ensures state == (if old(withPayload[0]) then ReadPayload else ReadFirst)
      ensures old(withPayload[0]) ==> held == Held(old(headers[0]).lanes, 32)
      ensures dataOut == old(dataOut) + if old(withPayload[0]) then [] else [old(headers[0])]
    {
      var header, has := headers[0], withPayload[0];
      headers, withPayload := headers[1..], withPayload[1..];
      if !has {
        dataOut := dataOut + [header];
      } else {
        held := Blank(32) + header.lanes[..32];
        state := ReadPayload;
      }
    }

    /** One word of the packet: 32 held lanes and the first half of the payload word; its second half is held. */
    method ReadWord()
      requires state.ReadPayload? && dataIn != []
      modifies this
      ensures dataIn == old(dataIn)[1..] && held == old(dataIn[0]).lanes
      ensures var (y, next) := ShiftWord(old(held), old(dataIn[0]), 32);
              dataOut == old(dataOut) + [y] && state == (match next case More => ReadPayload case Flush => ExtraWord case Finished => ReadFirst)
    {
      var word := dataIn[0];
      dataIn := dataIn[1..];
      var last := word.last;
      if word.last {
        if word.lanes[32].keep {
          last := false;
          state := ExtraWord;
        } else {
          state := ReadFirst;
        }
      }
      dataOut := dataOut + [Word(held[32..] + word.lanes[..32], last)];
      held := word.lanes;
    }

    method SendExtra()
      requires state.ExtraWord?
      modifies `state, `dataOut
      ensures state.ReadFirst? && dataOut == old(dataOut) + [FlushWord(held, 32)]
    {
      dataOut := dataOut + [Word(held[32..] + Blank(32), true)];
      state := ReadFirst;
    }
  }

  class TxEngPseudoHeaderRemover {
    var firstWord: bool
    var extra: bool
    var prevWord: Lanes
    var dataIn: seq<Word>
    var dataOut: seq<Word>

    constructor ()
      ensures firstWord && !extra && dataIn == [] && dataOut == []
    {
      firstWord, extra, prevWord, dataIn, dataOut := true, false, Blank(LANES), [], [];
    }

    /** The first word of a packet is only held, unless it is the last one. */
    method First()
      requires firstWord && !extra && dataIn != []
      modifies this
      ensures dataIn == old(dataIn)[1..] && prevWord == old(dataIn[0]).lanes && firstWord == old(dataIn[0]).last && !extra
      ensures dataOut == old(dataOut) + if old(dataIn[0]).last then RemovePseudo([old(dataIn[0])]) else []
    {
      var currWord := dataIn[0];
      dataIn := dataIn[1..];
      if currWord.last {
        dataOut := dataOut + [Word(currWord.lanes[12..] + Blank(12), true)];
      }
      firstWord := currWord.last;
      prevWord := currWord.lanes;
    }

    method Next()
      requires !firstWord && !extra && dataIn != []
      modifies this
      ensures dataIn == old(dataIn)[1..] && prevWord == old(dataIn[0]).lanes && firstWord == old(dataIn[0]).last
      ensures var (y, next) := ShiftWord(old(prevWord), old(dataIn[0]), 12); dataOut == old(dataOut) + [y] && extra == next.Flush?
    {
      var currWord := dataIn[0];
      dataIn := dataIn[1..];
      var last := currWord.last;
      if currWord.last && currWord.lanes[12].keep {
        extra := true;
        last := false;
      }
      dataOut := dataOut + [Word(prevWord[12..] + currWord.lanes[..12], last)];
      firstWord := currWord.last;
      prevWord := currWord.lanes;
    }

    method SendExtra()
      requires extra
      modifies `extra, `dataOut
      ensures !extra && dataOut == old(dataOut) + [FlushWord(prevWord, 12)]
    {
      dataOut := dataOut + [Word(prevWord[12..] + Blank(12), true)];
      extra := false;
    }
  }

  class TxEngIpPktStitcher {
    var state: StitchState
    var prevWord: Lanes
    var headers: seq<Word>
    var checksums: seq<Word16>
    var dataIn: seq<Word>
    var dataOut: seq<Word>

    method ReadFirstWord()
      requires state.ReadFirst? && headers != [] && checksums != [] && dataIn != []
      modifies this
      ensures headers == old(headers)[1..] && checksums == old(checksums)[1..] && dataIn == old(dataIn)[1..]
      ensures prevWord == old(dataIn[0]).lanes
      ensures var (y, next) := ShiftWord(Held(old(headers[0]).lanes, 20), old(dataIn[0]), 44);
              && dataOut == old(dataOut) + [Word(InsertChecksum(y.lanes, old(checksums[0])), y.last)]
              && state == (match next case More => ReadPayload case Flush => ExtraWord case Finished => ReadFirst)
    {
      var ip, payload, checksum := headers[0], dataIn[0], checksums[0];
      headers, dataIn, checksums := headers[1..], dataIn[1..], checksums[1..];
      var last := false;
      if payload.last {
        if payload.lanes[44].keep {
          state := ExtraWord;
        } else {
          last := true;
        }
      } else {
        state := ReadPayload;
      }
      assert Held(ip.lanes, 20)[44..] == ip.lanes[..20];
      dataOut := dataOut + [Word(InsertChecksum(ip.lanes[..20] + payload.lanes[..44], checksum), last)];
      prevWord := payload.lanes;
    }

    method ReadWord()
      requires state.ReadPayload? && dataIn != []
      modifies this
      ensures dataIn == old(dataIn)[1..] && prevWord == old(dataIn[0]).lanes
      ensures var (y, next) := ShiftWord(old(prevWord), old(dataIn[0]), 44);
              dataOut == old(dataOut) + [y] && state == (match next case More => ReadPayload case Flush => ExtraWord case Finished => ReadFirst)
    {
      var payload := dataIn[0];
      dataIn := dataIn[1..];
      var last := payload.last;
      if payload.last {
        if payload.lanes[44].keep {
          last := false;
          state := ExtraWord;
        } else {
          state := ReadFirst;
        }
      }
      dataOut := dataOut + [Word(prevWord[44..] + payload.lanes[..44], last)];
      prevWord := payload.lanes;
    }

    method SendExtra()
      requires state.ExtraWord?
      modifies `state, `dataOut
      ensures state.ReadFirst? && dataOut == old(dataOut) + [FlushWord(prevWord, 44)]
    {
      dataOut := dataOut + [Word(prevWord[44..] + Blank(44), true)];
      state := ReadFirst;
    }
  }
}
