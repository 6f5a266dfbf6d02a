/** The UDP pipeline: appGetMetaData, udpTxEngine, udpRxEngine and rxTableHandler. */
module Udp {
  import opened ToeTypes
  import opened Words
  import opened WireTx
  import opened WireRx

  datatype UdpMetadata = UdpMetadata(theirIp: Seq32, myIp: Seq32, theirPort: Word16, myPort: Word16, valid: bool)

  /** IP and UDP header, both checksums zero: RFC 791 section 3.1 and RFC 768. */
  function UdpHeader(m: UdpMetadata, length: Word16): (h: seq<Byte>)
    ensures |h| == 28
  {
    [0x45, 0] + Be16((length + 28) % 0x1_0000) + [0, 0, 0, 0, 0x40, 0x11, 0, 0] + Be32(m.myIp) + Be32(m.theirIp)
    + Be16(m.myPort) + Be16(m.theirPort) + Be16((length + 8) % 0x1_0000) + [0, 0]
  }

  // ----- lengths -----

  /** keep2len: the highest lane kept, counted from one. */
  function KeepLength(l: seq<Lane>): (n: nat)
    ensures n <= |l|
  {
    if l == [] then 0 else if l[|l| - 1].keep then |l| else KeepLength(l[..|l| - 1])
  }

  /** len2Keep: the keep bits for a length; 0 stands for 64. */
  function LengthKeep(length: nat, i: nat): bool
    requires length < LANES
  {
    length == 0 || i < length
  }

  lemma {:induction false} KeepLengthIs(l: seq<Lane>, n: nat)
    requires n <= |l| && forall i :: 0 <= i < |l| ==> (l[i].keep <==> i < n)
    ensures KeepLength(l) == n
  {
    if |l| > n { KeepLengthIs(l[..|l| - 1], n); }
  }

  /** keep2len undoes len2Keep. */
  lemma {:induction false} KeepLengthInverse(l: Lanes, length: nat)
    requires length < LANES && forall i :: 0 <= i < LANES ==> l[i].keep == LengthKeep(length, i)
    ensures KeepLength(l) % LANES == length && KeepLength(l) > 0
  {
    KeepLengthIs(l, if length == 0 then LANES else length);
  }

  /** The length appGetMetaData reports for a packet. */
  function PayloadLength(ws: seq<Word>): Word16
    requires ws != []
  {
    (LANES * (|ws| - 1) + KeepLength(ws[|ws| - 1].lanes)) % 0x1_0000
  }

  /** It is the byte count of the packet, in 16 bits. */
  lemma {:induction false} LengthCounted(ws: seq<Word>, p: seq<Byte>)
    requires Packed(ws, p)
    ensures PayloadLength(ws) == |p| % 0x1_0000
  {
    var n := |ws| - 1;
    FlatSplit(ws, n);
    assert ws[n..] == [ws[n]];
    FlatOne(ws[n]);
    CarriesDrop(Flat(ws), p, LANES * n);
    var l, q := ws[n].lanes, p[LANES * n..];
    assert Flat(ws)[LANES * n..] == l;
    forall i | 0 <= i < |l| ensures l[i].keep <==> i < |q| { assert LaneOk(l, q, i); }
    KeepLengthIs(l, |q|);
  }

  lemma {:induction false} CountOn(count: nat, n: nat, k: nat)
    requires count == LANES * n % 0x1_0000
    ensures (count + k) % 0x1_0000 == (LANES * n + k) % 0x1_0000
  {}

  // ----- transmit and receive -----

  /** udpTxEngine: headers in front of the payload; nothing for a socket that is not valid. */
  function SendPacket(m: UdpMetadata, length: Word16, payload: seq<Word>): seq<Word> {
    if !m.valid then [] else Shift(Held(HeaderLanes(UdpHeader(m, length)), 28), payload, 36)
  }

  function HeaderMeta(l: Lanes): UdpMetadata {
    UdpMetadata(FromBe32(l, 12), FromBe32(l, 16), FromBe16(l[20].data, l[21].data), FromBe16(l[22].data, l[23].data), true)
  }

  /** udpRxEngine. */
  function Delivered(ws: seq<Word>): seq<Word>
    requires ws != []
  {
    Shift(ws[0].lanes, ws[1..], 28)
  }

  lemma {:induction false} UdpPacketBuilt(m: UdpMetadata, length: Word16, payload: seq<Word>, p: seq<Byte>)
    requires m.valid && Packed(payload, p)
    ensures Packed(SendPacket(m, length, payload), UdpHeader(m, length) + p)
  {
    var h := UdpHeader(m, length);
    HeaderCarries(h);
    HeaderInFront(HeaderLanes(h), h, payload, p);
  }

  lemma {:induction false} HeaderFields(m: UdpMetadata, length: Word16)
    ensures var h := UdpHeader(m, length);
            && h[2..4] == Be16((length + 28) % 0x1_0000) && h[12..16] == Be32(m.myIp) && h[16..20] == Be32(m.theirIp)
            && h[20..22] == Be16(m.myPort) && h[22..24] == Be16(m.theirPort) && h[24..26] == Be16((length + 8) % 0x1_0000)
  {}

  lemma {:induction false} LayoutOf(h: seq<Byte>, m: UdpMetadata, length: Word16)
    requires |h| == 28 && h[2..4] == Be16((length + 28) % 0x1_0000) && h[12..16] == Be32(m.myIp) && h[16..20] == Be32(m.theirIp)
    requires h[20..22] == Be16(m.myPort) && h[22..24] == Be16(m.theirPort) && h[24..26] == Be16((length + 8) % 0x1_0000)
    ensures FromBe16(h[2], h[3]) == (length + 28) % 0x1_0000 && FromBe16(h[24], h[25]) == (length + 8) % 0x1_0000
    ensures Byte4(h[12], h[13], h[14], h[15]) == m.myIp && Byte4(h[16], h[17], h[18], h[19]) == m.theirIp
    ensures FromBe16(h[20], h[21]) == m.myPort && FromBe16(h[22], h[23]) == m.theirPort
  {
    assert h[12..16] == [h[12], h[13], h[14], h[15]] && h[16..20] == [h[16], h[17], h[18], h[19]];
    assert h[2..4] == [h[2], h[3]] && h[20..22] == [h[20], h[21]] && h[22..24] == [h[22], h[23]] && h[24..26] == [h[24], h[25]];
    AddressBack(m.myIp, h[12], h[13], h[14], h[15]);
    AddressBack(m.theirIp, h[16], h[17], h[18], h[19]);
    PortBack(m.myPort, h[20], h[21]);
    PortBack(m.theirPort, h[22], h[23]);
    PortBack((length + 28) % 0x1_0000, h[2], h[3]);
    PortBack((length + 8) % 0x1_0000, h[24], h[25]);
  }

  /** The headers byte by byte: IPv4 with 5 words, its length, UDP as protocol 17, the addresses; then the ports, the UDP length, and a
      zero checksum, which stands for none (RFC 768). */
  lemma {:induction false} HeaderLayout(m: UdpMetadata, length: Word16)
    ensures var h := UdpHeader(m, length);
            && h[0] == 4 * 16 + 5 && FromBe16(h[2], h[3]) == (length + 28) % 0x1_0000 && h[8] == 64 && h[9] == 17
            && Byte4(h[12], h[13], h[14], h[15]) == m.myIp && Byte4(h[16], h[17], h[18], h[19]) == m.theirIp
            && FromBe16(h[20], h[21]) == m.myPort && FromBe16(h[22], h[23]) == m.theirPort
            && FromBe16(h[24], h[25]) == (length + 8) % 0x1_0000 && h[26] == 0 && h[27] == 0
  {
    var h := UdpHeader(m, length);
    HeaderFields(m, length);
    LayoutOf(h, m, length);
  }

  /** The metadata as the other side sees it. */
  function Mirrored(m: UdpMetadata): UdpMetadata { UdpMetadata(m.myIp, m.theirIp, m.myPort, m.theirPort, true) }

  lemma {:induction false} AddressBack(x: Seq32, a: Byte, b: Byte, c: Byte, d: Byte)
    requires Be32(x) == [a, b, c, d]
    ensures FromBe16(a, b) * 0x1_0000 + FromBe16(c, d) == x
  {
    Le32Back(x);
    assert Be32(x)[0] == a && Be32(x)[1] == b && Be32(x)[2] == c && Be32(x)[3] == d;
  }

  lemma {:induction false} PortBack(x: Word16, a: Byte, b: Byte)
    requires Be16(x) == [a, b]
    ensures FromBe16(a, b) == x
  {
    Le16Back(x);
  }

  lemma {:induction false} MetaBack(l: Lanes, h: seq<Byte>, m: UdpMetadata)
    requires |h| == 28 && forall i :: 0 <= i < 28 ==> l[i].data == h[i]
    requires h[12..16] == Be32(m.myIp) && h[16..20] == Be32(m.theirIp) && h[20..22] == Be16(m.myPort) && h[22..24] == Be16(m.theirPort)
    ensures HeaderMeta(l) == Mirrored(m)
  {
    assert h[12..16] == [h[12], h[13], h[14], h[15]] && h[16..20] == [h[16], h[17], h[18], h[19]];
    assert h[20..22] == [h[20], h[21]] && h[22..24] == [h[22], h[23]];
    AddressBack(m.myIp, h[12], h[13], h[14], h[15]);
    AddressBack(m.theirIp, h[16], h[17], h[18], h[19]);
    PortBack(m.myPort, h[20], h[21]);
    PortBack(m.theirPort, h[22], h[23]);
  }

  lemma {:induction false} MetaReceived(ws: seq<Word>, m: UdpMetadata, length: Word16, p: seq<Byte>)
    requires Packed(ws, UdpHeader(m, length) + p)
    ensures HeaderMeta(ws[0].lanes) == Mirrored(m)
  {
    var h := UdpHeader(m, length);
    HeaderFields(m, length);
    forall i: nat | i < 28 ensures ws[0].lanes[i].data == h[i] {
      FirstLane(ws, h + p, i);
      assert (h + p)[i] == h[i];
    }
    MetaBack(ws[0].lanes, h, m);
  }

  lemma {:induction false} PayloadBack(ws: seq<Word>, h: seq<Byte>, p: seq<Byte>)
    requires |h| == 28 && p != [] && Packed(ws, h + p)
    ensures Packed(Delivered(ws), p)
  {
    FrontDropped(ws, h + p, 28);
    assert (h + p)[28..] == p;
  }

  /** From one side to the other, for every payload that is not empty: the same bytes, and the addresses and ports with their roles
      changed. */
  lemma {:induction false} UdpRoundTrip(m: UdpMetadata, payload: seq<Word>, p: seq<Byte>)
    requires m.valid && Packed(payload, p)
    ensures var ws := SendPacket(m, PayloadLength(payload), payload);
            && Packed(ws, UdpHeader(m, |p| % 0x1_0000) + p) && ws != []
            && HeaderMeta(ws[0].lanes) == Mirrored(m) && Packed(Delivered(ws), p)
  {
    var length := PayloadLength(payload);
    var ws := SendPacket(m, length, payload);
    LengthCounted(payload, p);
    UdpPacketBuilt(m, length, payload, p);
    MetaReceived(ws, m, length, p);
    PayloadBack(ws, UdpHeader(m, length), p);
  }

  /** The length fields of a sent packet count its bytes and the headers, each exactly as long as that sum fits in 16 bits; the count
      of the bytes has wrapped by then, too. */
  lemma {:induction false} LengthFields(m: UdpMetadata, payload: seq<Word>, p: seq<Byte>)
    requires Packed(payload, p)
    ensures var h := UdpHeader(m, PayloadLength(payload));
            && (PayloadLength(payload) == |p| <==> |p| < 0x1_0000)
            && FromBe16(h[2], h[3]) == (|p| + 28) % 0x1_0000 && FromBe16(h[24], h[25]) == (|p| + 8) % 0x1_0000
            && (FromBe16(h[2], h[3]) == |p| + 28 <==> |p| < 0xFFE4) && (FromBe16(h[24], h[25]) == |p| + 8 <==> |p| < 0xFFF8)
  {
    var length := PayloadLength(payload);
    LengthCounted(payload, p);
    HeaderLayout(m, length);
    FitsExactly(|p|, 28);
    FitsExactly(|p|, 8);
    FitsExactly(|p|, 0);
  }

  lemma {:induction false} FitsExactly(n: nat, more: nat)
    ensures (n % 0x1_0000 + more) % 0x1_0000 == (n + more) % 0x1_0000
    ensures (n + more) % 0x1_0000 == n + more <==> n + more < 0x1_0000
  {}

  // ----- the socket table -----

  const NUMBER_SOCKETS: nat := 16

  datatype Socket = Socket(theirIp: Seq32, theirPort: Word16, myPort: Word16)

  predicate Matches(s: Socket, m: UdpMetadata) { s.theirIp == m.theirIp && s.theirPort == m.theirPort && s.myPort == m.myPort }

  datatype TableResponse = TableResponse(id: Word16, drop: bool)

  /** rxTableHandler: the first socket that matches; a packet for another address, or for no socket, is to be dropped. */
  method RxTableHandler(table: array<Socket>, m: UdpMetadata, myIpAddress: Seq32) returns (r: TableResponse)
    requires table.Length == NUMBER_SOCKETS
    ensures r.drop <==> m.myIp != myIpAddress || forall i :: 0 <= i < table.Length ==> !Matches(table[i], m)
    ensures (exists i :: 0 <= i < table.Length && Matches(table[i], m)) ==>
              r.id < table.Length && Matches(table[r.id], m) && forall i :: 0 <= i < r.id ==> !Matches(table[i], m)
    ensures (forall i :: 0 <= i < table.Length ==> !Matches(table[i], m)) ==> r.id == 0xFFFF
  {
    var index: int := -1;
    var i := 0;
    while i < NUMBER_SOCKETS && index == -1
      invariant 0 <= i <= NUMBER_SOCKETS && -1 <= index < i
      invariant index == -1 ==> forall j :: 0 <= j < i ==> !Matches(table[j], m)
      invariant index != -1 ==> Matches(table[index], m) && forall j :: 0 <= j < index ==> !Matches(table[j], m)
      decreases NUMBER_SOCKETS - i
    {
      if table[i].theirIp == m.theirIp && table[i].theirPort == m.theirPort && table[i].myPort == m.myPort {
        index := i;
      }
      i := i + 1;
    }
    r := TableResponse(index % 0x1_0000, !(m.myIp == myIpAddress && index != -1));
  }

  // ----- the processes -----

  class AppGetMetaData {
    var forwarding: bool
    var lenCount: nat
    var dataIn: seq<(Word, Word16)>
    var dataOut: seq<Word>
    var idOut: seq<Word16>
    var lengthOut: seq<Word16>
    /** The words of the current packet so far. */
    ghost var words: seq<Word>

    ghost predicate Valid()
      reads this
    {
      if forwarding then words != [] && lenCount == LANES * |words| % 0x1_0000 else words == []
    }

    method FirstWord()
      requires Valid() && !forwarding && dataIn != []
      modifies this
      ensures Valid() && dataIn == old(dataIn)[1..] && idOut == old(idOut) + [old(dataIn)[0].1] && dataOut == old(dataOut) + [old(dataIn)[0].0]
      ensures if old(dataIn)[0].0.last then !forwarding && lengthOut == old(lengthOut) + [PayloadLength([old(dataIn)[0].0])]
              else forwarding && words == [old(dataIn)[0].0] && lengthOut == old(lengthOut)
    {
      var (currWord, dest) := dataIn[0];
      dataIn := dataIn[1..];
      idOut := idOut + [dest];
      dataOut := dataOut + [currWord];
      lenCount := 64;
      if currWord.last {
        lengthOut := lengthOut + [KeepLength(currWord.lanes)];
      } else {
        forwarding := true;
        words := [currWord];
      }
    }

    method NextWord()
      requires Valid() && forwarding && dataIn != []
      modifies this
      ensures Valid() && dataIn == old(dataIn)[1..] && idOut == old(idOut) && dataOut == old(dataOut) + [old(dataIn)[0].0]
      ensures if old(dataIn)[0].0.last then !forwarding && lengthOut == old(lengthOut) + [PayloadLength(old(words) + [old(dataIn)[0].0])]
              else forwarding && words == old(words) + [old(dataIn)[0].0] && lengthOut == old(lengthOut)
    {
      var currWord := dataIn[0].0;
      dataIn := dataIn[1..];
      dataOut := dataOut + [currWord];
      CountOn(lenCount, |words|, KeepLength(currWord.lanes));
      CountOn(lenCount, |words|, LANES);
      if currWord.last {
        lengthOut := lengthOut + [(lenCount + KeepLength(currWord.lanes)) % 0x1_0000];
        forwarding := false;
        words := [];
      } else {
        lenCount := (lenCount + 64) % 0x1_0000;
        words := words + [currWord];
      }
    }
  }

  datatype TxState = GetMetadata | PktHeader | ForwardPayload | SendExtra | DropPayload

  /** prevWord is the whole word of which the code keeps lanes 36 on. */
  class UdpTxEngine {
    var state: TxState
    var prevWord: Lanes
    var meta: UdpMetadata
    var ipLen: Word16
    var udpLen: Word16
    var metaIn: seq<UdpMetadata>
    var lengthIn: seq<Word16>
    var dataIn: seq<Word>
    var dataOut: seq<Word>

    method ReadMetadata()
      requires state.GetMetadata? && metaIn != [] && lengthIn != []
      modifies this
      ensures meta == old(metaIn)[0] && metaIn == old(metaIn)[1..] && lengthIn == old(lengthIn)[1..] && dataIn == old(dataIn)
      ensures ipLen == (old(lengthIn)[0] as int + 28) % 0x1_0000 && udpLen == (old(lengthIn)[0] as int + 8) % 0x1_0000 && dataOut == old(dataOut)
      ensures state == if meta.valid then PktHeader else DropPayload
    {
      meta, metaIn := metaIn[0], metaIn[1..];
      var currLen: nat := lengthIn[0];
      ipLen, udpLen := (currLen + 20 + 8) % 0x1_0000, (currLen + 8) % 0x1_0000;
      lengthIn := lengthIn[1..];
      state := if meta.valid then PktHeader else DropPayload;
    }

    /** The headers, and the first 36 bytes of the payload behind them. */
    method FirstWord(ghost length: Word16)
      requires state.PktHeader? && dataIn != [] && ipLen == (length + 28) % 0x1_0000 && udpLen == (length + 8) % 0x1_0000
      modifies this
      ensures dataIn == old(dataIn)[1..] && prevWord == old(dataIn[0]).lanes
      ensures var (y, next) := ShiftWord(Held(HeaderLanes(UdpHeader(old(meta), length)), 28), old(dataIn[0]), 36);
              dataOut == old(dataOut) + [y] && state == (match next case More => ForwardPayload case Flush => SendExtra case Finished => GetMetadata)
    {
      var currWord := dataIn[0];
      dataIn := dataIn[1..];
      var header := [0x45, 0] + Be16(ipLen) + [0, 0, 0, 0, 0x40, 0x11, 0, 0] + Be32(meta.myIp) + Be32(meta.theirIp)
                    + Be16(meta.myPort) + Be16(meta.theirPort) + Be16(udpLen) + [0, 0];
      assert header == UdpHeader(meta, length);
      var lanes := HeaderLanes(header)[..28];
      assert Held(HeaderLanes(header), 28)[36..] == lanes;
      var last := Advance(currWord);
      dataOut := dataOut + [Word(lanes + currWord.lanes[..36], last)];
      prevWord := currWord.lanes;
    }

    /** The state behind a payload word, and the last flag of the word sent for it. */
    method Advance(currWord: Word) returns (last: bool)
      modifies `state
      ensures var next := ShiftWord(Blank(LANES), currWord, 36).1;
              state == (match next case More => ForwardPayload case Flush => SendExtra case Finished => GetMetadata) && last == next.Finished?
    {
      last := false;
      state := ForwardPayload;
      if currWord.last {
        if currWord.lanes[36].keep {
          state := SendExtra;
        } else {
          last := true;
          state := GetMetadata;
        }
      }
    }

    method NextWord()
      requires state.ForwardPayload? && dataIn != []
      modifies this
      ensures dataIn == old(dataIn)[1..] && prevWord == old(dataIn[0]).lanes
      ensures var (y, next) := ShiftWord(old(prevWord), old(dataIn[0]), 36);
              dataOut == old(dataOut) + [y] && state == (match next case More => ForwardPayload case Flush => SendExtra case Finished => GetMetadata)
    {
      var currWord := dataIn[0];
      dataIn := dataIn[1..];
      var last := Advance(currWord);
      dataOut := dataOut + [Word(prevWord[36..] + currWord.lanes[..36], last)];
      prevWord := currWord.lanes;
    }

    method ExtraWord()
      requires state.SendExtra?
      modifies `state, `dataOut
      ensures state.GetMetadata? && dataOut == old(dataOut) + [FlushWord(prevWord, 36)]
    {
      dataOut := dataOut + [Word(prevWord[36..] + Blank(36), true)];
      state := GetMetadata;
    }

    method DropWord()
      requires state.DropPayload? && dataIn != []
      modifies `state, `dataIn
      ensures dataIn == old(dataIn)[1..] && state == if old(dataIn[0]).last then GetMetadata else DropPayload
    {
      if dataIn[0].last {
        state := GetMetadata;
      }
      dataIn := dataIn[1..];
    }
  }

  datatype RxState = ReadHeader | Consume | RxExtra

  /** prevWord is the whole word of which the code keeps lanes 28 on. */
  class UdpRxEngine {
    var state: RxState
    var prevWord: Lanes
    var dataIn: seq<Word>
    var metaOut: seq<UdpMetadata>
    var dataOut: seq<Word>

    method FirstWord()
      requires state.ReadHeader? && dataIn != []
      modifies this
      ensures dataIn == old(dataIn)[1..] && prevWord == old(dataIn[0]).lanes && metaOut == old(metaOut) + [HeaderMeta(prevWord)]
      ensures state == if old(dataIn[0]).last then ReadHeader else Consume
      ensures dataOut == old(dataOut) + if old(dataIn[0]).last then Delivered([old(dataIn[0])]) else []
    {
      var currWord := dataIn[0];
      dataIn := dataIn[1..];
      metaOut := metaOut + [HeaderMeta(currWord.lanes)];
      if currWord.last {
        dataOut := dataOut + [Word(currWord.lanes[28..] + Blank(28), true)];
      } else {
        state := Consume;
      }
      prevWord := currWord.lanes;
    }

    method NextWord()
      requires state.Consume? && dataIn != []
      modifies this
      ensures dataIn == old(dataIn)[1..] && prevWord == old(dataIn[0]).lanes && metaOut == old(metaOut)
      ensures var (y, next) := ShiftWord(old(prevWord), old(dataIn[0]), 28);
              dataOut == old(dataOut) + [y] && state == (match next case More => Consume case Flush => RxExtra case Finished => ReadHeader)
    {
      var currWord := dataIn[0];
      dataIn := dataIn[1..];
      var last := false;
      if currWord.last {
        if currWord.lanes[28].keep {
          state := RxExtra;
        } else {
          last := true;
          state := ReadHeader;
        }
      }
      dataOut := dataOut + [Word(prevWord[28..] + currWord.lanes[..28], last)];
      prevWord := currWord.lanes;
    }

    method ExtraWord()
      requires state.RxExtra?
      modifies `state, `dataOut
      ensures state.ReadHeader? && dataOut == old(dataOut) + [FlushWord(prevWord, 28)]
    {
      dataOut := dataOut + [Word(prevWord[28..] + Blank(28), true)];
      state := ReadHeader;
    }
  }
}
