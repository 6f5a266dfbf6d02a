/** The Ethernet header put in front of an IP packet (broadcaster_and_mac_request, handle_output) and taken off again
    (packet_identification, ethernet_remover). */
module EthernetFraming {
  import opened ToeTypes
  import opened Words
  import WireRx
  import WireTx
  import TcpChecksumAxis
  import TransmittedChecksum

  // ----- sending -----

  type Mac = b: seq<Byte> | |b| == 6 witness [0, 0, 0, 0, 0, 0]

  datatype ArpReply = ArpReply(mac: Mac, hit: bool)

  function EthernetHeader(dst: Mac, src: Mac): (h: seq<Byte>)
    ensures |h| == 14
  {
    dst + src + [0x08, 0x00]
  }

  function HeaderBehind(dst: Mac, src: Mac): Lanes { Held(WireTx.HeaderLanes(EthernetHeader(dst, src)), 14) }

  /** handle_output: a packet, its first word from one FIFO and the others from another; nothing without an ARP entry. */
  function Output(reply: ArpReply, myMac: Mac, first: Word, others: seq<Word>): seq<Word> {
    if reply.hit then Shift(HeaderBehind(reply.mac, myMac), [first] + others, 50) else []
  }

  // ----- receiving -----

  /** The labels of packet_identification. */
  const ARP := 0
  const ICMP := 1
  const TCP := 2
  const UDP := 3

  /** The label of a packet by its first word, if it is to be forwarded. junk stands for the variable that the branch for an IPv4
      type with another version leaves unassigned. */
  function Identify(l: Lanes, junk: nat): Option<nat> {
    var ethernetType := FromBe16(l[12].data, l[13].data);
    if ethernetType == 0x0806 then Some(ARP)
    else if ethernetType != 0x0800 then None
    else if l[14].data / 16 != 4 then Some(junk)
    else if l[23].data == 1 then Some(ICMP)
    else if l[23].data == 6 then Some(TCP)
    else if l[23].data == 17 then Some(UDP)
    else None
  }

  /** ethernet_remover: ARP packets stay as they are. */
  function Remove(ws: seq<Word>, dest: nat): seq<Word>
    requires ws != []
  {
    if dest == ARP then ws else Shift(ws[0].lanes, ws[1..], 14)
  }

  function Handle(ws: seq<Word>, junk: nat): seq<Word>
    requires ws != []
  {
    match Identify(ws[0].lanes, junk)
    case None => []
    case Some(dest) => Remove(ws, dest)
  }

  // ----- the round trip -----

  predicate KnownIpv4(pkt: seq<Byte>) { |pkt| >= 10 && pkt[0] / 16 == 4 && (pkt[9] == 1 || pkt[9] == 6 || pkt[9] == 17) }

  function Label(pkt: seq<Byte>): nat
    requires KnownIpv4(pkt)
  {
    if pkt[9] == 1 then ICMP else if pkt[9] == 6 then TCP else UDP
  }

  lemma {:induction false} FrameBuilt(dst: Mac, src: Mac, ws: seq<Word>, pkt: seq<Byte>)
    requires Packed(ws, pkt)
    ensures Packed(Output(ArpReply(dst, true), src, ws[0], ws[1..]), EthernetHeader(dst, src) + pkt)
  {
    var h := EthernetHeader(dst, src);
    assert [ws[0]] + ws[1..] == ws;
    WireTx.HeaderCarries(h);
    HeaderInFront(WireTx.HeaderLanes(h), h, ws, pkt);
  }

  lemma {:induction false} Identified(fs: seq<Word>, dst: Mac, src: Mac, pkt: seq<Byte>, junk: nat)
    requires Packed(fs, EthernetHeader(dst, src) + pkt) && KnownIpv4(pkt)
    ensures Identify(fs[0].lanes, junk) == Some(Label(pkt))
  {
    var frame := EthernetHeader(dst, src) + pkt;
    FirstLane(fs, frame, 12);
    FirstLane(fs, frame, 13);
    FirstLane(fs, frame, 14);
    FirstLane(fs, frame, 23);
    assert frame[12] == 0x08 && frame[13] == 0x00 && frame[14] == pkt[0] && frame[23] == pkt[9];
  }

  lemma {:induction false} FrameRemoved(fs: seq<Word>, h: seq<Byte>, pkt: seq<Byte>)
    requires |h| == 14 && pkt != [] && Packed(fs, h + pkt)
    ensures Packed(Shift(fs[0].lanes, fs[1..], 14), pkt)
  {
    FrontDropped(fs, h + pkt, 14);
    assert (h + pkt)[14..] == pkt;
  }

  /** Every TCP, UDP or ICMP packet comes out as it went in, for any number of words and any length of the last one, and gets the
      label of its protocol. */
  lemma {:induction false} FrameRoundTrip(dst: Mac, src: Mac, ws: seq<Word>, pkt: seq<Byte>, junk: nat)
    requires Packed(ws, pkt) && KnownIpv4(pkt)
    ensures var fs := Output(ArpReply(dst, true), src, ws[0], ws[1..]);
            fs != [] && Identify(fs[0].lanes, junk) == Some(Label(pkt)) && Packed(Handle(fs, junk), pkt)
  {
    var fs := Output(ArpReply(dst, true), src, ws[0], ws[1..]);
    FrameBuilt(dst, src, ws, pkt);
    Identified(fs, dst, src, pkt, junk);
    FrameRemoved(fs, EthernetHeader(dst, src), pkt);
  }

  /** The first fourteen bytes of a frame: the address found for the next hop, the own one, and the type of IPv4. */
  lemma {:induction false} FrameAddressed(reply: ArpReply, myMac: Mac, ws: seq<Word>, pkt: seq<Byte>, i: nat)
    requires Packed(ws, pkt) && pkt != [] && reply.hit && i < 14
    ensures var fs := Output(reply, myMac, ws[0], ws[1..]);
            fs != [] && fs[0].lanes[i] == Lane(if i < 6 then reply.mac[i] else if i < 12 then myMac[i - 6] else if i == 12 then 8 else 0, true)
  {
    var fs, frame := Output(reply, myMac, ws[0], ws[1..]), EthernetHeader(reply.mac, myMac) + pkt;
    FrameBuilt(reply.mac, myMac, ws, pkt);
    FirstLane(fs, frame, i);
  }

  /** Frames of other kinds: ARP comes out whole, with its own label; a protocol of IPv4 that is none of the three, and any other type of
      frame, not at all. */
  lemma {:induction false} OtherFrames(fs: seq<Word>, frame: seq<Byte>, junk: nat)
    requires Packed(fs, frame) && |frame| >= 24
    ensures fs != []
    ensures frame[12..14] == [8, 6] ==> Identify(fs[0].lanes, junk) == Some(ARP) && Handle(fs, junk) == fs
    ensures frame[12..14] == [8, 0] && frame[14] / 16 == 4 && frame[23] != 1 && frame[23] != 6 && frame[23] != 17 ==> Handle(fs, junk) == []
    ensures frame[12..14] != [8, 6] && frame[12..14] != [8, 0] ==> Handle(fs, junk) == []
  {
    FirstLane(fs, frame, 12);
    FirstLane(fs, frame, 13);
    FirstLane(fs, frame, 14);
    FirstLane(fs, frame, 23);
    assert frame[12..14] == [frame[12], frame[13]];
  }

  // ----- with the IP checksum -----

  function Checksummed(pkt: seq<Byte>, c: Word16): seq<Byte>
    requires |pkt| >= 12
  {
    pkt[10 := c / 256][11 := c % 256]
  }

  /** The first word on its way through compute_and_insert_ip_checksum. */
  function FirstSent(w: Word): Word {
    Word(TransmittedChecksum.WithIpChecksum(w.lanes, TransmittedChecksum.IpChecksum(TransmittedChecksum.Data(w.lanes))), w.last)
  }

  lemma {:induction false} ChecksumPacked(ws: seq<Word>, pkt: seq<Byte>, c: Word16)
    requires Packed(ws, pkt) && |pkt| >= 12
    ensures Packed([Word(TransmittedChecksum.WithIpChecksum(ws[0].lanes, c), ws[0].last)] + ws[1..], Checksummed(pkt, c))
  {
    var zs, q := [Word(TransmittedChecksum.WithIpChecksum(ws[0].lanes, c), ws[0].last)] + ws[1..], Checksummed(pkt, c);
    FlatCons(zs[0], ws[1..]);
    FlatCons(ws[0], ws[1..]);
    assert [ws[0]] + ws[1..] == ws;
    forall i | 0 <= i < |zs| ensures LastAt(zs, i) { assert LastAt(ws, i); }
    forall i | 0 <= i < |Flat(zs)| ensures LaneOk(Flat(zs), q, i) {
      assert LaneOk(Flat(ws), pkt, i);
      assert Flat(zs)[i] == if i < LANES then zs[0].lanes[i] else Flat(ws)[i];
    }
  }

  lemma {:induction false} HeaderBytes(ws: seq<Word>, pkt: seq<Byte>, c: Word16, n: nat)
    requires Packed(ws, pkt) && 12 <= n <= |pkt| && n <= LANES
    ensures TransmittedChecksum.Data(TransmittedChecksum.WithIpChecksum(ws[0].lanes, c))[..n] == Checksummed(pkt, c)[..n]
    ensures TransmittedChecksum.Data(ws[0].lanes)[0] == pkt[0]
  {
    forall i: nat | i < n ensures ws[0].lanes[i].data == pkt[i] { FirstLane(ws, pkt, i); }
  }

  lemma {:induction false} HeaderSum(ws: seq<Word>, pkt: seq<Byte>, c: Word16, n: nat)
    requires Packed(ws, pkt) && n == 4 * (pkt[0] % 16) && 20 <= n <= |pkt|
    requires c == TransmittedChecksum.IpChecksum(TransmittedChecksum.Data(ws[0].lanes))
    ensures TcpChecksumAxis.OnesSum(Checksummed(pkt, c)[..n]) == 0xFFFF
  {
    HeaderBytes(ws, pkt, c, n);
    TransmittedChecksum.IpHeaderVerifies(ws[0].lanes, c);
  }

  lemma {:induction false} StillKnown(pkt: seq<Byte>, c: Word16)
    requires KnownIpv4(pkt) && |pkt| >= 12
    ensures KnownIpv4(Checksummed(pkt, c)) && Label(Checksummed(pkt, c)) == Label(pkt)
  {}

  /** From the IP packet at the sender to the IP packet at the receiver: the same bytes but for the checksum field, and a header
      that sums to all ones. */
  lemma {:induction false} FrameDelivers(dst: Mac, src: Mac, ws: seq<Word>, pkt: seq<Byte>, junk: nat)
    requires Packed(ws, pkt) && KnownIpv4(pkt) && 20 <= 4 * (pkt[0] % 16) <= |pkt|
    ensures var fs := Output(ArpReply(dst, true), src, FirstSent(ws[0]), ws[1..]);
            var q := Checksummed(pkt, TransmittedChecksum.IpChecksum(TransmittedChecksum.Data(ws[0].lanes)));
            && fs != [] && Packed(Handle(fs, junk), q) && Identify(fs[0].lanes, junk) == Some(Label(pkt))
            && TcpChecksumAxis.OnesSum(q[..4 * (pkt[0] % 16)]) == 0xFFFF
  {
    var c := TransmittedChecksum.IpChecksum(TransmittedChecksum.Data(ws[0].lanes));
    var zs, q := [FirstSent(ws[0])] + ws[1..], Checksummed(pkt, c);
    ChecksumPacked(ws, pkt, c);
    StillKnown(pkt, c);
    assert zs[0] == FirstSent(ws[0]) && zs[1..] == ws[1..];
    FrameRoundTrip(dst, src, zs, q, junk);
    HeaderSum(ws, pkt, c, 4 * (pkt[0] % 16));
  }

  // ----- the processes -----

  function DestinationIp(w: Word): bv32 { WireRx.FromLe32(w.lanes, 16) as bv32 }

  /** Whose MAC address is asked for: the destination's in the own subnet, the gateway's for every other. */
  function NextHop(dst: bv32, subnetMask: bv32, gateway: bv32): bv32 {
    if dst & subnetMask == gateway & subnetMask then dst else gateway
  }

  lemma {:induction false} SameMasked(a: bv32, b: bv32, mask: bv32)
    ensures (a ^ b) & mask == 0 <==> a & mask == b & mask
  {}

  /** The destination itself is asked for if it differs from the gateway in no bit of the mask; else the gateway is. */
  lemma {:induction false} NextHopIs(dst: bv32, subnetMask: bv32, gateway: bv32)
    ensures NextHop(dst, subnetMask, gateway) == if (dst ^ gateway) & subnetMask == 0 then dst else gateway
  {
    SameMasked(dst, gateway, subnetMask);
  }

  /** The first word of each packet goes to the checksum, the others around it; the destination address is in its lanes 16 to 19. */
  class BroadcasterAndMacRequest {
    var remaining: bool
    var dataIn: seq<Word>
    var ipHeaderOut: seq<Word>
    var noIpHeaderOut: seq<Word>
    var arpTableRequest: seq<bv32>

    method RequestMac(dst: bv32, subnetMask: bv32, gateway: bv32)
      modifies `arpTableRequest
      ensures arpTableRequest == old(arpTableRequest) + [NextHop(dst, subnetMask, gateway)]
    {
      if dst & subnetMask == gateway & subnetMask {
        arpTableRequest := arpTableRequest + [dst];
      } else {
        arpTableRequest := arpTableRequest + [gateway];
      }
    }

    method Step(subnetMask: bv32, gateway: bv32)
      requires dataIn != []
      modifies this
      ensures dataIn == old(dataIn)[1..] && remaining == !old(dataIn[0]).last
      ensures ipHeaderOut == old(ipHeaderOut) + if old(remaining) then [] else [old(dataIn[0])]
      ensures noIpHeaderOut == old(noIpHeaderOut) + if old(remaining) then [old(dataIn[0])] else []
      ensures arpTableRequest == old(arpTableRequest)
                + if old(remaining) then [] else [NextHop(DestinationIp(old(dataIn[0])), subnetMask, gateway)]
    {
      var currWord := dataIn[0];
      dataIn := dataIn[1..];
      if !remaining {
        RequestMac(DestinationIp(currWord), subnetMask, gateway);
        ipHeaderOut := ipHeaderOut + [currWord];
        if !currWord.last {
          remaining := true;
        }
      } else {
        noIpHeaderOut := noIpHeaderOut + [currWord];
        if currWord.last {
          remaining := false;
        }
      }
    }
  }

  datatype OutputState = WaitLookup | DropIp | DropNoIp | WriteFirst | WriteRemaining | WriteExtra

  /** previousWord is the whole word of which the code keeps the last 14 lanes; before the first word, the header in that place. */
  class HandleOutput {
    var state: OutputState
    var previousWord: Lanes
    var replies: seq<ArpReply>
    var ipHeader: seq<Word>
    var noIpHeader: seq<Word>
    var dataOut: seq<Word>

    method ReadReply(myMac: Mac)
      requires state.WaitLookup? && replies != []
      modifies this
      ensures replies == old(replies)[1..] && ipHeader == old(ipHeader) && noIpHeader == old(noIpHeader) && dataOut == old(dataOut)
      ensures state == if old(replies)[0].hit then WriteFirst else DropIp
      ensures old(replies)[0].hit ==> previousWord == HeaderBehind(old(replies)[0].mac, myMac)
    {
      var reply := replies[0];
      replies := replies[1..];
      if reply.hit {
        var header := WireTx.HeaderLanes(reply.mac + myMac + [0x08, 0x00]);
        previousWord := Blank(50) + header[..14];
        state := WriteFirst;
      } else {
        state := DropIp;
      }
    }

    /** One word behind what is held; from the first FIFO for the first word. */
    method Write(current: Word)
      modifies `state, `previousWord, `dataOut
      ensures previousWord == current.lanes
      ensures var (y, next) := ShiftWord(old(previousWord), current, 50);
              dataOut == old(dataOut) + [y] && state == (match next case More => WriteRemaining case Flush => WriteExtra case Finished => WaitLookup)
    {
      var last := false;
      if current.last {
        if current.lanes[50].keep {
          state := WriteExtra;
        } else {
          last := true;
          state := WaitLookup;
        }
      } else {
        state := WriteRemaining;
      }
      dataOut := dataOut + [Word(previousWord[50..] + current.lanes[..50], last)];
      previousWord := current.lanes;
    }

    method WriteFirstTransaction()
      requires state.WriteFirst? && ipHeader != []
      modifies this
      ensures ipHeader == old(ipHeader)[1..] && noIpHeader == old(noIpHeader) && previousWord == old(ipHeader)[0].lanes
      ensures var (y, next) := ShiftWord(old(previousWord), old(ipHeader)[0], 50);
              dataOut == old(dataOut) + [y] && state == (match next case More => WriteRemaining case Flush => WriteExtra case Finished => WaitLookup)
    {
      var current := ipHeader[0];
      ipHeader := ipHeader[1..];
      Write(current);
    }

    method WriteNext()
      requires state.WriteRemaining? && noIpHeader != []
      modifies this
      ensures noIpHeader == old(noIpHeader)[1..] && ipHeader == old(ipHeader) && previousWord == old(noIpHeader)[0].lanes
      ensures var (y, next) := ShiftWord(old(previousWord), old(noIpHeader)[0], 50);
              dataOut == old(dataOut) + [y] && state == (match next case More => WriteRemaining case Flush => WriteExtra case Finished => WaitLookup)
    {
      var current := noIpHeader[0];
      noIpHeader := noIpHeader[1..];
      Write(current);
    }

    method WriteExtraWord()
      requires state.WriteExtra?
      modifies `state, `dataOut
      ensures state.WaitLookup? && dataOut == old(dataOut) + [FlushWord(previousWord, 50)]
    {
      dataOut := dataOut + [Word(previousWord[50..] + Blank(50), true)];
      state := WaitLookup;
    }

    /** A packet without an ARP entry is read and dropped. */
    method DropWord()
      requires (state.DropIp? && ipHeader != []) || (state.DropNoIp? && noIpHeader != [])
      modifies `state, `ipHeader, `noIpHeader
      ensures if old(state).DropIp?
              then ipHeader == old(ipHeader)[1..] && noIpHeader == old(noIpHeader)
                   && state == if old(ipHeader)[0].last then WaitLookup else DropNoIp
              else ipHeader == old(ipHeader) && noIpHeader == old(noIpHeader)[1..]
                   && state == if old(noIpHeader)[0].last then WaitLookup else DropNoIp
    {
      var current: Word;
      if state.DropIp? {
        current, ipHeader := ipHeader[0], ipHeader[1..];
      } else {
        current, noIpHeader := noIpHeader[0], noIpHeader[1..];
      }
      state := if current.last then WaitLookup else DropNoIp;
    }
  }

  datatype IdentificationState = Identifying | ForwardPacket | DropPacket

  class PacketIdentification {
    var state: IdentificationState
    var destination: nat
    var dataIn: seq<Word>
    var dataOut: seq<(Word, nat)>

    method FirstWord(junk: nat)
      requires state.Identifying? && dataIn != []
      modifies this
      ensures dataIn == old(dataIn)[1..]
      ensures match Identify(old(dataIn[0]).lanes, junk)
              case Some(dest) => destination == dest && dataOut == old(dataOut) + [(old(dataIn[0]), dest)]
                                 && state == (if old(dataIn[0]).last then Identifying else ForwardPacket)
              case None => dataOut == old(dataOut) && state == (if old(dataIn[0]).last then Identifying else DropPacket)
    {
      var currWord := dataIn[0];
      dataIn := dataIn[1..];
      var ethernetType := FromBe16(currWord.lanes[12].data, currWord.lanes[13].data);
      var ipVersion, ipProtocol := currWord.lanes[14].data / 16, currWord.lanes[23].data;
      var tdest, forward := junk, true;
      if ethernetType == 0x0806 {
        tdest := ARP;
      } else if ethernetType == 0x0800 {
        if ipVersion == 4 {
          if ipProtocol == 1 {
            tdest := ICMP;
          } else if ipProtocol == 6 {
            tdest := TCP;
          } else if ipProtocol == 17 {
            tdest := UDP;
          } else {
            forward := false;
          }
        }
      } else {
        forward := false;
      }
      destination := tdest;
      if forward {
        dataOut := dataOut + [(currWord, tdest)];
        state := ForwardPacket;
      } else {
        state := DropPacket;
      }
      if currWord.last {
        state := Identifying;
      }
    }

    method NextWord()
      requires !state.Identifying? && dataIn != []
      modifies `state, `dataIn, `dataOut
      ensures dataIn == old(dataIn)[1..] && state == if old(dataIn[0]).last then Identifying else old(state)
      ensures dataOut == old(dataOut) + if old(state).ForwardPacket? then [(old(dataIn[0]), destination)] else []
    {
      var currWord := dataIn[0];
      dataIn := dataIn[1..];
      if state.ForwardPacket? {
        dataOut := dataOut + [(currWord, destination)];
      }
      if currWord.last {
        state := Identifying;
      }
    }
  }

  datatype RemoverState = FirstOfPacket | Intact | Removing | RemoverExtra

  class EthernetRemover {
    var state: RemoverState
    var prevWord: Lanes
    var prevDest: nat
    var dataIn: seq<(Word, nat)>
    var dataOut: seq<(Word, nat)>

    method FirstWord()
      requires state.FirstOfPacket? && dataIn != []
      modifies this
      ensures dataIn == old(dataIn)[1..] && prevWord == old(dataIn[0]).0.lanes && prevDest == old(dataIn[0]).1
      ensures state == if old(dataIn[0]).0.last then FirstOfPacket else if prevDest == ARP then Intact else Removing
      ensures dataOut == old(dataOut) + if prevDest == ARP then [old(dataIn[0])]
                                        else if old(dataIn[0]).0.last then [(FlushWord(prevWord, 14), prevDest)] else []
    {
      var (currWord, dest) := dataIn[0];
      dataIn := dataIn[1..];
      var sendWord := currWord;
      if dest == ARP {
        state := Intact;
      } else {
        sendWord := Word(currWord.lanes[14..] + Blank(14), true);
        state := Removing;
      }
      if currWord.last {
        dataOut := dataOut + [(sendWord, dest)];
        state := FirstOfPacket;
      } else if dest == ARP {
        dataOut := dataOut + [(sendWord, dest)];
      }
      prevWord, prevDest := currWord.lanes, dest;
    }

    method ForwardWord()
      requires state.Intact? && dataIn != []
      modifies `state, `dataIn, `dataOut
      ensures dataIn == old(dataIn)[1..] && dataOut == old(dataOut) + [old(dataIn[0])]
      ensures state == if old(dataIn[0]).0.last then FirstOfPacket else Intact
    {
      if dataIn[0].0.last {
        state := FirstOfPacket;
      }
      dataOut := dataOut + [dataIn[0]];
      dataIn := dataIn[1..];
    }

    method NextWord()
      requires state.Removing? && dataIn != []
      modifies this
      ensures dataIn == old(dataIn)[1..] && prevWord == old(dataIn[0]).0.lanes && prevDest == old(dataIn[0]).1
      ensures var (y, next) := ShiftWord(old(prevWord), old(dataIn[0]).0, 14);
              && dataOut == old(dataOut) + [(y, old(prevDest))]
              && state == (match next case More => Removing case Flush => RemoverExtra case Finished => FirstOfPacket)
    {
      var (currWord, dest) := dataIn[0];
      dataIn := dataIn[1..];
      var last := false;
      if currWord.last {
        if currWord.lanes[14].keep {
          state := RemoverExtra;
        } else {
          last := true;
          state := FirstOfPacket;
        }
      }
      dataOut := dataOut + [(Word(prevWord[14..] + currWord.lanes[..14], last), prevDest)];
      prevWord, prevDest := currWord.lanes, dest;
    }

    method ExtraWord()
      requires state.RemoverExtra?
      modifies `state, `dataOut
      ensures state.FirstOfPacket? && dataOut == old(dataOut) + [(FlushWord(prevWord, 14), prevDest)]
    {
      dataOut := dataOut + [(Word(prevWord[14..] + Blank(14), true), prevDest)];
      state := FirstOfPacket;
    }
  }
}
