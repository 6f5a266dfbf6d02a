/** Packets that are sent verify: the TCP checksum from the TX engine to the RX engine, and the IP header checksum of
    compute_and_insert_ip_checksum. */
module TransmittedChecksum {
  import opened ToeTypes
  import opened Words
  import opened WireTx
  import opened WireRx
  import opened ChecksumTree
  import opened TcpChecksumAxis

  // ----- a checksum field -----

  /** A 16-bit field in the middle adds its value. */
  lemma {:induction false} FieldAdds(a: seq<Byte>, c: Word16, b: seq<Byte>)
    requires |a| % 2 == 0
    ensures RawSum(a + Be16(c) + b) == RawSum(a) + c + RawSum(b)
  {
    assert a + Be16(c) + b == a + (Be16(c) + b);
    RawSumCat(a, Be16(c) + b);
    RawSumCat(Be16(c), b);
    Le16Back(c);
    assert RawSum(Be16(c)) == c by { assert Be16(c)[2..] == []; }
  }

  /** The complement of the sum completes it to all ones, and so does its other representation if it has one. */
  lemma {:induction false} Completes(sum: nat, c: Word16)
    requires sum > 0
    ensures OnesValue(sum + c) == 0xFFFF <==> c % 0xFFFF == (0xFFFF - OnesValue(sum)) % 0xFFFF
  {
    OnesValueIs(sum);
    OnesValueIs(sum + c);
    ModuloOfSum(sum, OnesValue(sum), c);
    ModuloOfComplement(OnesValue(sum), c);
  }

  lemma {:induction false} ModuloOfSum(a: nat, b: nat, c: nat)
    requires a % 0xFFFF == b % 0xFFFF
    ensures (a + c) % 0xFFFF == (b + c) % 0xFFFF
  {}

  lemma {:induction false} ModuloOfComplement(v: Word16, c: Word16)
    ensures (v + c) % 0xFFFF == 0 <==> c % 0xFFFF == (0xFFFF - v) % 0xFFFF
  {}

  /** Bytes with a zero field, and the same with the field set. */
  lemma {:induction false} FieldVerifies(a: seq<Byte>, b: seq<Byte>, c: Word16)
    requires |a| % 2 == 0 && RawSum(a + Be16(0) + b) > 0
    ensures Checksum(a + Be16(c) + b) == 0 <==> c % 0xFFFF == Checksum(a + Be16(0) + b) % 0xFFFF
  {
    var x, y := a + Be16(0) + b, a + Be16(c) + b;
    FieldAdds(a, 0, b);
    FieldAdds(a, c, b);
    SumsVerify(x, y, c);
  }

  lemma {:induction false} SumsVerify(x: seq<Byte>, y: seq<Byte>, c: Word16)
    requires RawSum(x) > 0 && RawSum(y) == RawSum(x) + c
    ensures Checksum(y) == 0 <==> c % 0xFFFF == Checksum(x) % 0xFFFF
  {
    OnesSumIs(x);
    OnesSumIs(y);
    Completes(RawSum(x), c);
  }

  // ----- TCP -----

  /** The bytes around the checksum field of a pseudo packet. */
  lemma {:induction false} ArrivedSplit(t: FourTuple, m: TcpMeta, p: seq<Byte>, checksum: Word16)
    ensures var z := PseudoHeader(t, m) + p;
            && |z| >= 32 && z == z[..28] + Be16(0) + z[30..] && Arrived(t, m, p, checksum) == z[..28] + Be16(checksum) + z[30..]
  {
    var z := PseudoHeader(t, m) + p;
    var h := TcpHeader(t, m);
    TcpChecksumZero(t, m);
    assert z[28] == h[16] && z[29] == h[17];
    assert z[28..30] == [h[16], h[17]] == Be16(0);
    assert z == z[..28] + z[28..30] + z[30..];
    var q := Arrived(t, m, p, checksum);
    assert |q| == |z|;
    assert q[28] == checksum / 256 && q[29] == checksum % 256;
    assert q[..28] == z[..28] && q[30..] == z[30..];
    assert q == q[..28] + [q[28], q[29]] + q[30..];
  }

  lemma {:induction false} TcpChecksumZero(t: FourTuple, m: TcpMeta)
    ensures TcpHeader(t, m)[16] == 0 && TcpHeader(t, m)[17] == 0
  {}

  lemma {:induction false} NonZeroSum(p: seq<Byte>, i: nat)
    requires i < |p| && p[i] > 0
    ensures RawSum(p) > 0
    decreases i
  {
    if i >= 2 { NonZeroSum(p[2..], i - 2); }
  }

  /** The protocol number is never zero. */
  lemma {:induction false} PseudoNonZero(t: FourTuple, m: TcpMeta, p: seq<Byte>)
    ensures RawSum(PseudoHeader(t, m) + p) > 0
  {
    var z := PseudoHeader(t, m) + p;
    assert z[9] == 6;
    NonZeroSum(z, 9);
  }

  /** A segment whose checksum field holds c is accepted exactly when c is the checksum of the pseudo packet that was sent, in
      either of its representations. */
  lemma {:induction false} AcceptedExactly(t: FourTuple, m: TcpMeta, p: seq<Byte>, c: Word16)
    ensures Checksum(Arrived(t, m, p, c)) == 0 <==> c % 0xFFFF == Checksum(PseudoHeader(t, m) + p) % 0xFFFF
  {
    var z := PseudoHeader(t, m) + p;
    ArrivedSplit(t, m, p, c);
    PseudoNonZero(t, m, p);
    FieldVerifies(z[..28], z[30..], c);
  }

  /** A checksum unit that, under some timing, accepted exactly these words since its reset. */
  predicate UnitRan(data: Bytes64, input: seq<Inputs>, ws: seq<Word>, delivered: seq<Word16>) {
    var s := Run(Tree, System(Reset(data), [], []), input);
    s.accepted == ws && s.delivered == delivered
  }

  lemma {:induction false} OnePacket(data: Bytes64, input: seq<Inputs>, ws: seq<Word>, p: seq<Byte>, delivered: seq<Word16>)
    requires Packed(ws, p) && UnitRan(data, input, ws, delivered)
    ensures delivered <= [Checksum(p)]
  {
    assert PacketAt([ws], [p], 0);
    assert Joined([ws]) == ws by { assert [ws][..0] == []; }
    RunChecksums(data, input, [ws], [p]);
    assert Checksums([p]) == [Checksum(p)];
  }

  function PseudoWords(t: FourTuple, m: TcpMeta, payload: seq<Word>): seq<Word> {
    StitchPayload(Word(HeaderLanes(PseudoHeader(t, m)), true), HasPayload(m), payload)
  }

  /** What the unit of the TX engine delivers for a pseudo packet. */
  lemma {:induction false} ChecksumSent(t: FourTuple, m: TcpMeta, payload: seq<Word>, p: seq<Byte>, data: Bytes64, input: seq<Inputs>, c: Word16)
    requires TxMetaOk(m, p) && (p != [] ==> Packed(payload, p)) && UnitRan(data, input, PseudoWords(t, m, payload), [c])
    ensures c == Checksum(PseudoHeader(t, m) + p)
  {
    PseudoStitched(t, m, payload, p);
    OnePacket(data, input, PseudoWords(t, m, payload), PseudoHeader(t, m) + p, [c]);
    assert [c][0] == c;
  }

  /** The words of the pseudo packet the RX engine makes of what the TX engine sends. */
  function ArrivedWords(t: FourTuple, m: TcpMeta, payload: seq<Word>, p: seq<Byte>, c: Word16): (ws: seq<Word>)
    requires TxMetaOk(m, p) && (p != [] ==> Packed(payload, p))
    ensures Packed(ws, Arrived(t, m, p, c))
  {
    PacketArrives(t, m, payload, p, c);
    InsertPseudo(Transmit(t, m, payload, c))
  }

  /** From one checksum unit to the other, whatever the timing of both: the unit of the TX engine is given the pseudo packet, its
      result is inserted into the packet, and the unit of the RX engine, given the pseudo packet made of that, delivers zero. */
  lemma {:induction false} TransmittedVerifies(
      t: FourTuple, m: TcpMeta, payload: seq<Word>, p: seq<Byte>, txData: Bytes64, txInput: seq<Inputs>, c: Word16,
      rxData: Bytes64, rxInput: seq<Inputs>, delivered: seq<Word16>)
    requires TxMetaOk(m, p) && (p != [] ==> Packed(payload, p))
    requires UnitRan(txData, txInput, PseudoWords(t, m, payload), [c])
    requires UnitRan(rxData, rxInput, ArrivedWords(t, m, payload, p, c), delivered)
    ensures delivered <= [0]
  {
    ChecksumSent(t, m, payload, p, txData, txInput, c);
    AcceptedExactly(t, m, p, c);
    OnePacket(rxData, rxInput, ArrivedWords(t, m, payload, p, c), Arrived(t, m, p, c), delivered);
  }

  /** A unit from its reset: the words ws were accepted by the end of input, nothing but them until the end of the run, and the result
      was taken at an edge after the next. */
  predicate UnitFinished(data: Bytes64, input: seq<Inputs>, first: Inputs, waits: seq<Inputs>, taken: Inputs, ws: seq<Word>, delivered: seq<Word16>) {
    && taken.mReady && Run(Tree, System(Reset(data), [], []), input).accepted == ws
    && UnitRan(data, input + [first] + waits + [taken], ws, delivered)
  }

  lemma {:induction false} OneResult(
      data: Bytes64, input: seq<Inputs>, first: Inputs, waits: seq<Inputs>, taken: Inputs, ws: seq<Word>, p: seq<Byte>, delivered: seq<Word16>)
    requires Packed(ws, p) && UnitFinished(data, input, first, waits, taken, ws, delivered)
    ensures delivered == [Checksum(p)]
  {
    OnePacket(data, input + [first] + waits + [taken], ws, p, delivered);
    RunHandsOver(data, input, first, waits, taken);
    PacketSum([], ws, p);
    assert [] + ws == ws && SumsOf([]) == Sums([], 0);
  }

  /** The unit of the TX engine does deliver a result, the checksum of the pseudo packet. */
  lemma {:induction false} SentInTime(
      t: FourTuple, m: TcpMeta, payload: seq<Word>, p: seq<Byte>, data: Bytes64, input: seq<Inputs>, first: Inputs, waits: seq<Inputs>,
      taken: Inputs, delivered: seq<Word16>)
    requires TxMetaOk(m, p) && (p != [] ==> Packed(payload, p))
    requires UnitFinished(data, input, first, waits, taken, PseudoWords(t, m, payload), delivered)
    ensures delivered == [Checksum(PseudoHeader(t, m) + p)]
  {
    PseudoStitched(t, m, payload, p);
    OneResult(data, input, first, waits, taken, PseudoWords(t, m, payload), PseudoHeader(t, m) + p, delivered);
  }

  /** The unit of the RX engine does deliver a result, and it is zero. */
  lemma {:induction false} VerifiedInTime(
      t: FourTuple, m: TcpMeta, payload: seq<Word>, p: seq<Byte>, txData: Bytes64, txInput: seq<Inputs>, c: Word16,
      data: Bytes64, input: seq<Inputs>, first: Inputs, waits: seq<Inputs>, taken: Inputs, delivered: seq<Word16>)
    requires TxMetaOk(m, p) && (p != [] ==> Packed(payload, p))
    requires UnitRan(txData, txInput, PseudoWords(t, m, payload), [c])
    requires UnitFinished(data, input, first, waits, taken, ArrivedWords(t, m, payload, p, c), delivered)
    ensures delivered == [0]
  {
    ChecksumSent(t, m, payload, p, txData, txInput, c);
    AcceptedExactly(t, m, p, c);
    OneResult(data, input, first, waits, taken, ArrivedWords(t, m, payload, p, c), Arrived(t, m, p, c), delivered);
  }

  // ----- the IP header -----

  /** The 30 words of the longest header that belong to this one, the checksum word cleared. */
  function HeaderWords(p: Bytes64): (ops: seq<Word16>)
    ensures |ops| == 30
  {
    seq(30, i requires 0 <= i < 30 => if i < p[0] % 16 * 2 && i != 5 then FromBe16(p[2 * i], p[2 * i + 1]) else 0)
  }

  function Sum(s: seq<nat>): nat { if s == [] then 0 else s[0] + Sum(s[1..]) }

  /** One level of the adder tree; an odd word goes through. */
  function Pairs(s: seq<nat>): (r: seq<nat>)
    ensures |r| == (|s| + 1) / 2
    ensures forall i :: 0 <= i < |s| / 2 ==> r[i] == s[2 * i] + s[2 * i + 1]
    ensures |s| % 2 == 1 ==> r[|r| - 1] == s[|s| - 1]
  {
    if |s| < 2 then s else [s[0] + s[1]] + Pairs(s[2..])
  }

  lemma {:induction false} PairsKeepSum(s: seq<nat>)
    ensures Sum(Pairs(s)) == Sum(s)
  {
    if |s| >= 2 {
      PairsKeepSum(s[2..]);
      assert Pairs(s)[1..] == Pairs(s[2..]);
      assert s[1..][1..] == s[2..];
    }
  }

  lemma {:induction false} PairsAre(s: seq<nat>, r: seq<nat>)
    requires |r| == (|s| + 1) / 2 && (forall i :: 0 <= i < |s| / 2 ==> r[i] == s[2 * i] + s[2 * i + 1])
    requires |s| % 2 == 1 ==> r[|r| - 1] == s[|s| - 1]
    ensures r == Pairs(s)
  {}

  /** Two folds of a sum of 21 bits. */
  function FoldTwice(sum: nat): Word16
    requires sum < 0x20_0000
  {
    var once := sum % 0x1_0000 + sum / 0x1_0000;
    (once / 0x1_0000 + once) % 0x1_0000
  }

  lemma {:induction false} FoldOnceIs(once: nat)
    requires once < 0x1_FFFF
    ensures (once / 0x1_0000 + once) % 0x1_0000 == OnesValue(once)
  {
    if once < 0x1_0000 {
      assert once / 0x1_0000 == 0;
    } else {
      assert once / 0x1_0000 == 1;
    }
  }

  lemma {:induction false} FoldTwiceIs(sum: nat)
    requires sum < 0x20_0000
    ensures FoldTwice(sum) == OnesValue(sum)
  {
    var high, low := sum / 0x1_0000, sum % 0x1_0000;
    FoldOnceIs(low + high);
    SameByMultiple(sum, low + high, high);
  }

  method AdderLevel(ops: array<nat>) returns (sums: array<nat>)
    ensures fresh(sums) && sums[..] == Pairs(ops[..])
  {
    sums := new nat[(ops.Length + 1) / 2];
    for i := 0 to ops.Length / 2
      invariant forall j :: 0 <= j < i ==> sums[j] == ops[2 * j] + ops[2 * j + 1]
    {
      sums[i] := ops[2 * i] + ops[2 * i + 1];
    }
    if ops.Length % 2 == 1 {
      sums[sums.Length - 1] := ops[ops.Length - 1];
    }
    PairsAre(ops[..], sums[..]);
  }

  /** The checksum computed over the first word of a packet. */
  function IpChecksum(p: Bytes64): Word16 { 0xFFFF - OnesValue(Sum(HeaderWords(p))) }

  function WithIpChecksum(l: Lanes, c: Word16): Lanes { l[10 := l[10].(data := c / 256)][11 := l[11].(data := c % 256)] }

  function Data(l: Lanes): Bytes64 { seq(64, i requires 0 <= i < 64 => l[i].data) }

  /** The adder tree, level by level. */
  lemma {:induction false} FiveLevels(s: seq<nat>)
    requires |s| == 30
    ensures var t := Pairs(Pairs(Pairs(Pairs(Pairs(s))))); |t| == 1 && t[0] == Sum(s)
  {
    var a := Pairs(s);
    var b := Pairs(a);
    var c := Pairs(b);
    var d := Pairs(c);
    PairsKeepSum(s);
    PairsKeepSum(a);
    PairsKeepSum(b);
    PairsKeepSum(c);
    PairsKeepSum(d);
    SumOfOne(Pairs(d));
  }

  lemma {:induction false} SumOfOne(s: seq<nat>)
    requires |s| == 1
    ensures Sum(s) == s[0]
  {}

  lemma {:induction false} SumBound(s: seq<Word16>)
    ensures Sum(s) <= 0xFFFF * |s|
  {
    if s != [] { SumBound(s[1..]); }
  }

  /** data_ops: the words of the header, the checksum word cleared. */
  method LoadOps(p: Bytes64) returns (ipOps: array<nat>)
    ensures fresh(ipOps) && ipOps[..] == HeaderWords(p)
  {
    ipOps := new nat[30];
    for i := 0 to 30
      invariant forall j :: 0 <= j < i ==> ipOps[j] == if j < p[0] % 16 * 2 then FromBe16(p[2 * j], p[2 * j + 1]) else 0
    {
      ipOps[i] := if i < p[0] % 16 * 2 then FromBe16(p[2 * i], p[2 * i + 1]) else 0;
    }
    ipOps[5] := 0;
  }

  method AdderTree(ipOps: array<nat>) returns (sum: nat)
    requires ipOps.Length == 30
    ensures sum == Sum(ipOps[..])
  {
    FiveLevels(ipOps[..]);
    var sums := AdderLevel(ipOps);
    sums := AdderLevel(sums);
    sums := AdderLevel(sums);
    sums := AdderLevel(sums);
    sums := AdderLevel(sums);
    sum := sums[0];
  }

  method FinalSum(sum: nat) returns (finalSum: nat)
    requires sum < 0x20_0000
    ensures finalSum == OnesValue(sum)
  {
    FoldTwiceIs(sum);
    finalSum := sum % 0x1_0000 + sum / 0x1_0000;
    finalSum := (finalSum / 0x1_0000 + finalSum) % 0x1_0000;
  }

  method ComputeAndInsertIpChecksum(currWord: Word) returns (out: Word)
    ensures out == Word(WithIpChecksum(currWord.lanes, IpChecksum(Data(currWord.lanes))), currWord.last)
  {
    var p := Data(currWord.lanes);
    var ipOps := LoadOps(p);
    var sum := AdderTree(ipOps);
    SumBound(HeaderWords(p));
    var finalSum := FinalSum(sum);
    var chksum: Word16 := 0xFFFF - finalSum;
    assert chksum == IpChecksum(p);
    out := Word(WithIpChecksum(currWord.lanes, chksum), currWord.last);
  }

  // ----- the header verifies -----

  /** The words from i on make the bytes from 2i on. */
  lemma {:induction false} WordsAreBytes(p: seq<Byte>, s: seq<nat>, n: nat, i: nat)
    requires |p| == 2 * n && i <= n <= |s|
    requires forall j :: i <= j < n ==> s[j] == FromBe16(p[2 * j], p[2 * j + 1])
    requires forall j :: n <= j < |s| ==> s[j] == 0
    ensures Sum(s[i..]) == RawSum(p[2 * i..])
    decreases n - i
  {
    if i < n {
      WordsAreBytes(p, s, n, i + 1);
      assert s[i..][1..] == s[i + 1..];
      assert p[2 * i..][2..] == p[2 * (i + 1)..];
    } else {
      RestIsZero(s, i);
      assert p[2 * i..] == [];
    }
  }

  lemma {:induction false} RestIsZero(s: seq<nat>, i: nat)
    requires i <= |s| && forall j :: i <= j < |s| ==> s[j] == 0
    ensures Sum(s[i..]) == 0
    decreases |s| - i
  {
    if i < |s| {
      RestIsZero(s, i + 1);
      assert s[i..][1..] == s[i + 1..];
    }
  }

  /** A header with its checksum field cleared, and with the field set. */
  lemma {:induction false} HeaderVerifies(h: seq<Byte>, s: seq<nat>, c: Word16)
    requires |h| % 2 == 0 && 20 <= |h| <= 60 && h[0] > 0 && h[10..12] == Be16(0) && |s| == 30
    requires forall j :: 0 <= j < |h| / 2 ==> s[j] == FromBe16(h[2 * j], h[2 * j + 1])
    requires forall j :: |h| / 2 <= j < |s| ==> s[j] == 0
    ensures Checksum(h[..10] + Be16(c) + h[12..]) == 0 <==> c % 0xFFFF == (0xFFFF - OnesValue(Sum(s))) % 0xFFFF
  {
    var a, b := h[..10], h[12..];
    HeaderParts(h, s);
    FieldVerifies(a, b, c);
    OnesSumIs(a + Be16(0) + b);
  }

  lemma {:induction false} HeaderParts(h: seq<Byte>, s: seq<nat>)
    requires |h| % 2 == 0 && 20 <= |h| <= 60 && h[0] > 0 && h[10..12] == Be16(0) && |s| == 30
    requires forall j :: 0 <= j < |h| / 2 ==> s[j] == FromBe16(h[2 * j], h[2 * j + 1])
    requires forall j :: |h| / 2 <= j < |s| ==> s[j] == 0
    ensures h == h[..10] + Be16(0) + h[12..] && RawSum(h) == Sum(s) && RawSum(h) > 0
  {
    WordsAreBytes(h, s, |h| / 2, 0);
    assert s[0..] == s && h[0..] == h;
    NonZeroSum(h, 0);
  }

  /** The bytes of a header with its checksum field cleared are the words the tree adds up. */
  lemma {:induction false} HeaderOf(p: Bytes64, n: nat, h: seq<Byte>)
    requires n == 4 * (p[0] % 16) && n >= 20 && h == p[..10] + Be16(0) + p[12..n]
    ensures |h| == n && h[0] == p[0] && h[10..12] == Be16(0) && h[..10] == p[..10] && h[12..] == p[12..n]
    ensures forall j :: 0 <= j < n / 2 ==> HeaderWords(p)[j] == FromBe16(h[2 * j], h[2 * j + 1])
    ensures forall j :: n / 2 <= j < 30 ==> HeaderWords(p)[j] == 0
  {}

  lemma {:induction false} DataWith(l: Lanes, c: Word16, n: nat)
    requires 12 <= n <= 64
    ensures Data(WithIpChecksum(l, c))[..n] == Data(l)[..10] + Be16(c) + Data(l)[12..n]
  {}

  /** For every header length: the header that leaves sums to all ones, its checksum the only value, up to the two
      representations of zero, for which it does. */
  lemma {:induction false} IpHeaderVerifies(l: Lanes, c: Word16)
    requires 5 <= Data(l)[0] % 16
    ensures var n := 4 * (Data(l)[0] % 16);
            OnesSum(Data(WithIpChecksum(l, c))[..n]) == 0xFFFF <==> c % 0xFFFF == IpChecksum(Data(l)) % 0xFFFF
  {
    var p := Data(l);
    var n := 4 * (p[0] % 16);
    var h := p[..10] + Be16(0) + p[12..n];
    HeaderOf(p, n, h);
    DataWith(l, c, n);
    HeaderSumsTo(p, h, c);
  }

  lemma {:induction false} HeaderSumsTo(p: Bytes64, h: seq<Byte>, c: Word16)
    requires |h| == 4 * (p[0] % 16) && |h| >= 20 && h[0] == p[0] && h[10..12] == Be16(0)
    requires forall j :: 0 <= j < |h| / 2 ==> HeaderWords(p)[j] == FromBe16(h[2 * j], h[2 * j + 1])
    requires forall j :: |h| / 2 <= j < 30 ==> HeaderWords(p)[j] == 0
    ensures OnesSum(h[..10] + Be16(c) + h[12..]) == 0xFFFF <==> c % 0xFFFF == IpChecksum(p) % 0xFFFF
  {
    HeaderVerifies(h, HeaderWords(p), c);
  }
}
