/** The clocked checksum unit around the tree (tcp_checksum_axis), against the Internet checksum of RFC 1071 section 1. */
module TcpChecksumAxis {
  import opened ToeTypes
  import opened Words
  import opened ChecksumTree

  // ----- the checksum of RFC 1071 -----

  /** One's complement addition of 16-bit words: the carry is added back. */
  function OnesAdd(a: Word16, b: Word16): Word16 { if a + b > 0xFFFF then a + b - 0xFFFF else a + b }

  /** The one's complement sum of the bytes taken as 16-bit words, high byte first, an odd byte padded with zero. */
  function OnesSum(p: seq<Byte>): Word16 {
    if p == [] then 0
    else if |p| == 1 then FromBe16(p[0], 0)
    else OnesAdd(FromBe16(p[0], p[1]), OnesSum(p[2..]))
  }

  function Checksum(p: seq<Byte>): Word16 { 0xFFFF - OnesSum(p) }

  /** The plain sum of the same words. */
  function RawSum(p: seq<Byte>): nat {
    if p == [] then 0
    else if |p| == 1 then FromBe16(p[0], 0)
    else FromBe16(p[0], p[1]) + RawSum(p[2..])
  }

  lemma {:induction false} OnesAddIs(a: Word16, b: Word16)
    ensures OnesAdd(a, b) == OnesValue(a + b)
  {
    OnesValueIs(a + b);
  }

  /** Adding the carries back word by word or all at the end gives the same sum. */
  lemma {:induction false} OnesSumIs(p: seq<Byte>)
    ensures OnesSum(p) == OnesValue(RawSum(p))
  {
    if |p| > 1 {
      OnesSumIs(p[2..]);
      var w := FromBe16(p[0], p[1]);
      OnesAddIs(w, OnesSum(p[2..]));
      ValueOfSum(RawSum(p[2..]), w);
    }
  }

  lemma {:induction false} RawSumCat(a: seq<Byte>, b: seq<Byte>)
    requires |a| % 2 == 0
    ensures RawSum(a + b) == RawSum(a) + RawSum(b)
  {
    if a == [] {
      assert a + b == b;
    } else {
      RawSumCat(a[2..], b);
      assert (a + b)[2..] == a[2..] + b;
    }
  }

  predicate AllZeros(z: seq<Byte>) { forall i :: 0 <= i < |z| ==> z[i] == 0 }

  lemma {:induction false} RawSumZeros(z: seq<Byte>)
    requires AllZeros(z)
    ensures RawSum(z) == 0
  {
    if |z| > 1 { RawSumZeros(z[2..]); }
  }

  lemma {:induction false} RawSumPaddedOne(p: seq<Byte>, z: seq<Byte>)
    requires AllZeros(z) && |p| == 1
    ensures RawSum(p + z) == RawSum(p)
  {
    if z == [] {
      assert p + z == p;
    } else {
      RawSumZeros(z[1..]);
      assert (p + z)[2..] == z[1..];
    }
  }

  /** Padding with zeros changes nothing. */
  lemma {:induction false} RawSumPadded(p: seq<Byte>, z: seq<Byte>)
    requires AllZeros(z)
    ensures RawSum(p + z) == RawSum(p)
  {
    if p == [] {
      RawSumZeros(z);
      assert p + z == z;
    } else if |p| == 1 {
      RawSumPaddedOne(p, z);
    } else {
      RawSumPadded(p[2..], z);
      assert (p + z)[2..] == p[2..] + z;
    }
  }

  // ----- bits -----

  function ToBits(x: nat, n: nat): (b: seq<bool>)
    ensures |b| == n
  {
    if n == 0 then [] else [x % 2 == 1] + ToBits(x / 2, n - 1)
  }

  lemma {:induction false} ToBitsValue(x: nat, n: nat)
    requires x < Pow2(n)
    ensures Value(ToBits(x, n)) == x
  {
    if n > 0 {
      ToBitsValue(x / 2, n - 1);
      assert ToBits(x, n)[1..] == ToBits(x / 2, n - 1);
    }
  }

  lemma {:induction false} WordBits(x: Word16)
    ensures Value(ToBits(x, 16)) == x
  {
    assert Pow2(15) == 32768;
    assert Pow2(16) == 65536;
    ToBitsValue(x, 16);
  }

  /** The input words of the tree: byte 2i is the high byte of word i. */
  function DataWords(p: seq<Byte>): (ws: seq<Bits16>)
    requires |p| % 2 == 0
    ensures |ws| == |p| / 2
  {
    if p == [] then [] else [ToBits(FromBe16(p[0], p[1]), 16)] + DataWords(p[2..])
  }

  lemma {:induction false} DataWordsTotal(p: seq<Byte>)
    requires |p| % 2 == 0
    ensures Total(DataWords(p)) == RawSum(p)
  {
    if p != [] {
      DataWordsTotal(p[2..]);
      WordBits(FromBe16(p[0], p[1]));
      assert DataWords(p)[1..] == DataWords(p[2..]);
    }
  }

  lemma {:induction false} TotalWithTwo(ws: seq<Bits16>, x: Bits16, y: Bits16)
    ensures Total(ws + [x, y]) == Total(ws) + Value(x) + Value(y)
  {
    if ws == [] {
      assert ws + [x, y] == [x, y];
      assert [x, y][1..] == [y];
      assert Total([y]) == Value(y) + Total([]);
    } else {
      TotalWithTwo(ws[1..], x, y);
      assert (ws + [x, y])[1..] == ws[1..] + [x, y];
    }
  }

  // ----- the registers -----

  type Bytes64 = b: seq<Byte> | |b| == 64 witness seq(64, _ => 0)

  datatype Regs = Regs(
    prev0: Bits16, prev1: Bits16, data: Bytes64, valid: bool, ready: bool, last: bool, internalReady: bool, mData: Word16, mValid: bool)

  /** The inputs of one clock edge. The word is arbitrary while valid is off. */
  datatype Inputs = Inputs(valid: bool, word: Word, mReady: bool)

  /** After reset, before any word was offered. */
  function Reset(data: Bytes64): Regs { Regs(AllZero(), AllZero(), data, false, false, false, true, 0, false) }

  function Ready(r: Regs, i: Inputs): bool { (!r.mValid || i.mReady) && r.internalReady }

  /** The bytes kept; the others are cleared. */
  function Kept(l: seq<Lane>): (b: seq<Byte>)
    ensures |b| == |l|
  {
    seq(|l|, i requires 0 <= i < |l| => if l[i].keep then l[i].data else 0)
  }

  /** A reduction of 34 words to two, as the unit instantiates one. */
  type Reduction = Words34 -> (Bits16, Bits16)

  /** A reduction that keeps the one's complement value. */
  ghost predicate KeepsValue(reduce: Reduction) {
    forall ws: Words34 {:trigger reduce(ws)} :: SameAsPair(Total(ws), reduce(ws))
  }

  lemma {:induction false} TreeIsReduction()
    ensures KeepsValue(Tree)
  {
    forall ws: Words34 ensures SameAsPair(Total(ws), Tree(ws)) { TreeKeeps(ws, Tree(ws)); }
  }

  function TreeInput(data: Bytes64, w0: Bits16, w1: Bits16): Words34 { DataWords(data) + [w0, w1] }

  /** The two words out of the reduction. */
  function Reduced(reduce: Reduction, r: Regs): (Bits16, Bits16) { reduce(TreeInput(r.data, r.prev0, r.prev1)) }

  function Result(t: (Bits16, Bits16)): Word16 {
    ValueBound16(t.0);
    ValueBound16(t.1);
    Fold(Value(t.0), Value(t.1))
  }

  /** A word was accepted at the previous edge. */
  predicate Pending(r: Regs) { r.valid && r.ready }

  /** One clock edge. */
  function Clock(reduce: Reduction, r: Regs, i: Inputs): Regs { NextRegs(r, i, Reduced(reduce, r), Result(Reduced(reduce, r))) }

  function NextRegs(r: Regs, i: Inputs, t: (Bits16, Bits16), result: Word16): Regs {
    Regs(if Pending(r) then (if r.last then AllZero() else t.0) else r.prev0,
         if Pending(r) then (if r.last then AllZero() else t.1) else r.prev1,
         Kept(i.word.lanes), i.valid, Ready(r, i), i.word.last,
         if i.valid && Ready(r, i) && i.word.last then false else if r.mValid && i.mReady then true else r.internalReady,
         if Pending(r) && r.last then 0xFFFF - result else r.mData,
         if Pending(r) && r.last then true else r.mValid && !i.mReady)
  }

  lemma {:induction false} ValueBound16(b: Bits16)
    ensures Value(b) < 0x1_0000
  {
    ValueBound(b);
    assert Pow2(15) == 32768;
    assert Pow2(16) == 65536;
  }

  /** The two words kept have the one's complement value of everything seen. */
  lemma {:induction false} ReducedIs(reduce: Reduction, r: Regs, t: (Bits16, Bits16), acc: nat)
    requires KeepsValue(reduce) && SameAsPair(acc, (r.prev0, r.prev1)) && t == Reduced(reduce, r)
    ensures SameAsPair(acc + RawSum(r.data), t)
  {
    var ws := TreeInput(r.data, r.prev0, r.prev1);
    DataWordsTotal(r.data);
    TotalWithTwo(DataWords(r.data), r.prev0, r.prev1);
    assert SameAsPair(Total(ws), reduce(ws));
    SameSum(acc, Value(r.prev0) + Value(r.prev1), RawSum(r.data), RawSum(r.data));
  }

  lemma {:induction false} ResultIs(t: (Bits16, Bits16), acc: nat)
    requires SameAsPair(acc, t)
    ensures Result(t) == OnesValue(acc)
  {
    ValueBound16(t.0);
    ValueBound16(t.1);
    FoldKeeps(Value(t.0), Value(t.1));
  }

  // ----- what the words ask for -----

  /** The checksums of the packets that ended, and the plain sum of the words behind them. */
  datatype Sums = Sums(done: seq<Word16>, acc: nat)

  function AddWord(s: Sums, data: Bytes64, last: bool): Sums {
    var acc := s.acc + RawSum(data);
    if last then Sums(s.done + [0xFFFF - OnesValue(acc)], 0) else Sums(s.done, acc)
  }

  function SumsOf(ws: seq<Word>): Sums {
    if ws == [] then Sums([], 0) else AddWord(SumsOf(ws[..|ws| - 1]), Kept(ws[|ws| - 1].lanes), ws[|ws| - 1].last)
  }

  // ----- runs -----

  /** The registers with the words accepted and the checksums handed over so far. */
  datatype System = System(regs: Regs, accepted: seq<Word>, delivered: seq<Word16>)

  function SystemStep(reduce: Reduction, s: System, i: Inputs): System {
    System(Clock(reduce, s.regs, i),
           if i.valid && Ready(s.regs, i) then s.accepted + [i.word] else s.accepted,
           if s.regs.mValid && i.mReady then s.delivered + [s.regs.mData] else s.delivered)
  }

  function Edges(reduce: Reduction): (System, Inputs) -> System { (s: System, i: Inputs) => SystemStep(reduce, s, i) }

  function Run(reduce: Reduction, s: System, input: seq<Inputs>): System { RunOf(Edges(reduce), s, input) }

  /** sums covers everything that is already in the two words. */
  predicate Accounted(r: Regs, sums: Sums, delivered: seq<Word16>) {
    && SameAsPair(sums.acc, (r.prev0, r.prev1))
    && sums.done == delivered + (if r.mValid then [r.mData] else [])
    && (r.mValid ==> sums.acc == 0)
  }

  predicate Inv(s: System) {
    if Pending(s.regs) then
      && s.accepted != [] && s.regs.data == Kept(s.accepted[|s.accepted| - 1].lanes)
      && s.regs.last == s.accepted[|s.accepted| - 1].last
      && Accounted(s.regs, SumsOf(s.accepted[..|s.accepted| - 1]), s.delivered)
      && !s.regs.mValid && s.regs.internalReady == !s.regs.last
    else
      Accounted(s.regs, SumsOf(s.accepted), s.delivered) && s.regs.internalReady == !s.regs.mValid
  }

  lemma {:induction false} Cleared()
    ensures SameAsPair(0, (AllZero(), AllZero()))
  {
    NoBits(0);
    assert AllZero()[0..] == AllZero();
  }

  /** What the tree and the fold make of a pending word. */
  lemma {:induction false} PendingReduced(reduce: Reduction, r: Regs, acc: nat, t: (Bits16, Bits16))
    requires KeepsValue(reduce) && SameAsPair(acc, (r.prev0, r.prev1)) && t == Reduced(reduce, r)
    ensures SameAsPair(acc + RawSum(r.data), t) && Result(t) == OnesValue(acc + RawSum(r.data))
  {
    ReducedIs(reduce, r, t, acc);
    ResultIs(t, acc + RawSum(r.data));
  }

  /** A pending word enters the two words, and its packet's checksum comes out if it was the last one. */
  lemma {:induction false} PendingEnters(reduce: Reduction, r: Regs, i: Inputs, sums: Sums, delivered: seq<Word16>)
    requires KeepsValue(reduce) && Pending(r) && !r.mValid && Accounted(r, sums, delivered)
    ensures Accounted(Clock(reduce, r, i), AddWord(sums, r.data, r.last), delivered)
    ensures Clock(reduce, r, i).mValid == r.last
  {
    var t, z := Reduced(reduce, r), Clock(reduce, r, i);
    PendingClocked(reduce, r, i, t, z);
    PendingReduced(reduce, r, sums.acc, t);
    if r.last { LastEnters(z, delivered); } else { MiddleEnters(z, t, sums.acc + RawSum(r.data), delivered); }
  }

  lemma {:induction false} LastEnters(z: Regs, delivered: seq<Word16>)
    requires z.mValid && z.prev0 == AllZero() && z.prev1 == AllZero()
    ensures Accounted(z, Sums(delivered + [z.mData], 0), delivered)
  {
    Cleared();
  }

  lemma {:induction false} MiddleEnters(z: Regs, t: (Bits16, Bits16), acc: nat, delivered: seq<Word16>)
    requires !z.mValid && (z.prev0, z.prev1) == t && SameAsPair(acc, t)
    ensures Accounted(z, Sums(delivered, acc), delivered)
  {
    assert delivered + [] == delivered;
  }

  /** The edge that takes a pending word. */
  lemma {:induction false} PendingClocked(reduce: Reduction, r: Regs, i: Inputs, t: (Bits16, Bits16), z: Regs)
    requires Pending(r) && !r.mValid && t == Reduced(reduce, r) && z == Clock(reduce, r, i)
    ensures z.mValid == r.last
    ensures r.last ==> z.mData == 0xFFFF - Result(t) && z.prev0 == AllZero() && z.prev1 == AllZero()
    ensures !r.last ==> (z.prev0, z.prev1) == t
  {}

  lemma {:induction false} NothingEnters(reduce: Reduction, r: Regs, i: Inputs, sums: Sums, delivered: seq<Word16>)
    requires !Pending(r) && Accounted(r, sums, delivered)
    ensures Accounted(Clock(reduce, r, i), sums, if r.mValid && i.mReady then delivered + [r.mData] else delivered)
    ensures Clock(reduce, r, i).mValid == (r.mValid && !i.mReady)
  {}

  /** After an edge everything accepted before it is in the two words, or is a result. */
  lemma {:induction false} StepAccounts(reduce: Reduction, s: System, i: Inputs)
    requires KeepsValue(reduce) && Inv(s)
    ensures Accounted(SystemStep(reduce, s, i).regs, SumsOf(s.accepted), SystemStep(reduce, s, i).delivered)
  {
    if Pending(s.regs) {
      PendingEnters(reduce, s.regs, i, SumsOf(s.accepted[..|s.accepted| - 1]), s.delivered);
    } else {
      NothingEnters(reduce, s.regs, i, SumsOf(s.accepted), s.delivered);
    }
  }

  lemma {:induction false} InvStep(reduce: Reduction, s: System, i: Inputs)
    requires KeepsValue(reduce) && Inv(s)
    ensures Inv(SystemStep(reduce, s, i))
  {
    var n := |s.accepted|;
    var z := SystemStep(reduce, s, i);
    StepAccounts(reduce, s, i);
    if i.valid && Ready(s.regs, i) {
      assert z.accepted[..n] == s.accepted;
    }
  }

  lemma {:induction false} InvRun(reduce: Reduction, s: System, input: seq<Inputs>)
    requires KeepsValue(reduce) && Inv(s)
    ensures Inv(Run(reduce, s, input))
    decreases |input|
  {
    if input != [] {
      InvStep(reduce, s, input[0]);
      InvRun(reduce, SystemStep(reduce, s, input[0]), input[1..]);
    }
  }

  // ----- packets -----

  lemma {:induction false} KeptCat(a: seq<Lane>, b: seq<Lane>)
    ensures Kept(a + b) == Kept(a) + Kept(b)
  {}

  lemma {:induction false} RawSumOfCarried(f: seq<Lane>, p: seq<Byte>)
    requires Carries(f, p)
    ensures RawSum(Kept(f)) == RawSum(p)
  {
    var z := Kept(f)[|p|..];
    forall i | 0 <= i < |f| ensures Kept(f)[i] == if i < |p| then p[i] else 0 { assert LaneOk(f, p, i); }
    assert Kept(f) == p + z;
    RawSumPadded(p, z);
  }

  lemma {:induction false} KeptSumCat(a: seq<Lane>, b: seq<Lane>)
    requires |a| % 2 == 0
    ensures RawSum(Kept(a + b)) == RawSum(Kept(a)) + RawSum(Kept(b))
  {
    KeptCat(a, b);
    RawSumCat(Kept(a), Kept(b));
  }

  lemma {:induction false} FlatSnoc(ws: seq<Word>, n: nat)
    requires n < |ws|
    ensures Flat(ws[..n + 1]) == Flat(ws[..n]) + ws[n].lanes
  {
    assert ws[..n + 1] == ws[..n] + [ws[n]];
    FlatCat(ws[..n], [ws[n]]);
    FlatOne(ws[n]);
  }

  lemma {:induction false} OneMore(ws: seq<Word>, n: nat)
    requires n < |ws|
    ensures RawSum(Kept(Flat(ws[..n + 1]))) == RawSum(Kept(Flat(ws[..n]))) + RawSum(Kept(ws[n].lanes))
  {
    FlatSnoc(ws, n);
    KeptSumCat(Flat(ws[..n]), ws[n].lanes);
  }

  lemma {:induction false} SumsOfSnoc(a: seq<Word>, w: Word)
    ensures SumsOf(a + [w]) == AddWord(SumsOf(a), Kept(w.lanes), w.last)
  {
    assert (a + [w])[..|a|] == a;
  }

  lemma {:induction false} TakeMore(before: seq<Word>, ws: seq<Word>, n: nat)
    requires n < |ws|
    ensures before + ws[..n + 1] == (before + ws[..n]) + [ws[n]]
  {}

  lemma {:induction false} NextInside(xs: seq<Word>, ys: seq<Word>, w: Word, done: seq<Word16>, sum: nat)
    requires ys == xs + [w] && !w.last && SumsOf(xs) == Sums(done, sum)
    ensures SumsOf(ys) == Sums(done, sum + RawSum(Kept(w.lanes)))
  {
    SumsOfSnoc(xs, w);
  }

  /** Inside a packet the sum of its bytes so far is carried along. */
  lemma {:induction false} InsidePacket(before: seq<Word>, done: seq<Word16>, ws: seq<Word>, n: nat, xs: seq<Word>)
    requires n < |ws| && LastOnly(ws) && SumsOf(before) == Sums(done, 0) && xs == before + ws[..n]
    ensures SumsOf(xs) == Sums(done, RawSum(Kept(Flat(ws[..n]))))
  {
    if n == 0 {
      assert xs == before;
    } else {
      var k := n - 1;
      var ys := before + ws[..k];
      InsidePacket(before, done, ws, k, ys);
      assert LastAt(ws, k);
      OneMore(ws, k);
      TakeMore(before, ws, k);
      NextInside(ys, xs, ws[k], done, RawSum(Kept(Flat(ws[..k]))));
    }
  }

  lemma {:induction false} LastWordEnds(a: seq<Word>, w: Word, acc: nat, p: seq<Byte>)
    requires w.last && SumsOf(a).acc == acc && acc + RawSum(Kept(w.lanes)) == RawSum(p)
    ensures SumsOf(a + [w]) == Sums(SumsOf(a).done + [Checksum(p)], 0)
  {
    SumsOfSnoc(a, w);
    OnesSumIs(p);
  }

  lemma {:induction false} WholeSum(ws: seq<Word>, p: seq<Byte>, n: nat)
    requires Carries(Flat(ws), p) && n + 1 == |ws|
    ensures RawSum(Kept(Flat(ws[..n]))) + RawSum(Kept(ws[n].lanes)) == RawSum(p)
  {
    OneMore(ws, n);
    assert ws[..n + 1] == ws;
    RawSumOfCarried(Flat(ws), p);
  }

  lemma {:induction false} BytesSum(before: seq<Word>, ws: seq<Word>, p: seq<Byte>, n: nat)
    requires |ws| == n + 1 && LastOnly(ws) && Carries(Flat(ws), p) && SumsOf(before).acc == 0
    ensures SumsOf(before + ws[..n] + [ws[n]]) == Sums(SumsOf(before).done + [Checksum(p)], 0)
  {
    InsidePacket(before, SumsOf(before).done, ws, n, before + ws[..n]);
    assert LastAt(ws, n);
    WholeSum(ws, p, n);
    LastWordEnds(before + ws[..n], ws[n], RawSum(Kept(Flat(ws[..n]))), p);
  }

  /** A packet adds its checksum, and nothing of it stays behind. */
  lemma {:induction false} PacketSum(before: seq<Word>, ws: seq<Word>, p: seq<Byte>)
    requires Packed(ws, p) && SumsOf(before).acc == 0
    ensures SumsOf(before + ws) == Sums(SumsOf(before).done + [Checksum(p)], 0)
  {
    var n := |ws| - 1;
    assert before + ws == before + ws[..n] + [ws[n]];
    BytesSum(before, ws, p, n);
  }

  /** Packets one behind the other. */
  function Joined(packets: seq<seq<Word>>): seq<Word> {
    if packets == [] then [] else Joined(packets[..|packets| - 1]) + packets[|packets| - 1]
  }

  function Checksums(ps: seq<seq<Byte>>): (c: seq<Word16>)
    ensures |c| == |ps|
  {
    seq(|ps|, i requires 0 <= i < |ps| => Checksum(ps[i]))
  }

  predicate PacketAt(packets: seq<seq<Word>>, ps: seq<seq<Byte>>, i: int) {
    0 <= i < |packets| && i < |ps| && Packed(packets[i], ps[i])
  }

  predicate AllPacked(packets: seq<seq<Word>>, ps: seq<seq<Byte>>) {
    |packets| == |ps| && forall i {:trigger PacketAt(packets, ps, i)} :: 0 <= i < |ps| ==> PacketAt(packets, ps, i)
  }

  lemma {:induction false} PacketSums(packets: seq<seq<Word>>, ps: seq<seq<Byte>>)
    requires AllPacked(packets, ps)
    ensures SumsOf(Joined(packets)) == Sums(Checksums(ps), 0)
    decreases |ps|
  {
    if ps != [] {
      var n := |ps| - 1;
      forall i | 0 <= i < n ensures PacketAt(packets[..n], ps[..n], i) { assert PacketAt(packets, ps, i); }
      PacketSums(packets[..n], ps[..n]);
      assert PacketAt(packets, ps, n);
      PacketSum(Joined(packets[..n]), packets[n], ps[n]);
      assert Checksums(ps) == Checksums(ps[..n]) + [Checksum(ps[n])];
    }
  }

  /** Whatever words are offered and whenever the result is taken: the checksums handed over are those of the words accepted, in
      order, and at most the latest one is still to come. */
  lemma {:induction false} RunDelivers(data: Bytes64, input: seq<Inputs>)
    ensures var s := Run(Tree, System(Reset(data), [], []), input);
            var done := SumsOf(s.accepted).done;
            s.delivered <= done && |done| <= |s.delivered| + 1
  {
    TreeIsReduction();
    Cleared();
    InvRun(Tree, System(Reset(data), [], []), input);
    InvDelivers(Run(Tree, System(Reset(data), [], []), input));
  }

  lemma {:induction false} InvDelivers(s: System)
    requires Inv(s)
    ensures s.delivered <= SumsOf(s.accepted).done && |SumsOf(s.accepted).done| <= |s.delivered| + 1
  {}

  /** For packets: the checksums are those of RFC 1071, for every packet length. */
  lemma {:induction false} RunChecksums(data: Bytes64, input: seq<Inputs>, packets: seq<seq<Word>>, ps: seq<seq<Byte>>)
    requires AllPacked(packets, ps) && Run(Tree, System(Reset(data), [], []), input).accepted == Joined(packets)
    ensures var s := Run(Tree, System(Reset(data), [], []), input);
            s.delivered <= Checksums(ps) && |ps| <= |s.delivered| + 1
  {
    RunDelivers(data, input);
    PacketSums(packets, ps);
  }

  // ----- in time -----

  lemma {:induction false} RunCat(reduce: Reduction, s: System, a: seq<Inputs>, b: seq<Inputs>)
    ensures Run(reduce, s, a + b) == Run(reduce, Run(reduce, s, a), b)
  {
    RunOfCat(Edges(reduce), s, a, b);
  }

  lemma {:induction false} RunSnoc(reduce: Reduction, s: System, a: seq<Inputs>, i: Inputs)
    ensures Run(reduce, s, a + [i]) == SystemStep(reduce, Run(reduce, s, a), i)
  {
    RunCat(reduce, s, a, [i]);
    RunOfOne(Edges(reduce), Run(reduce, s, a), i);
  }

  /** The results handed over and the one on offer. */
  function Results(s: System): nat { |s.delivered| + if s.regs.mValid then 1 else 0 }

  lemma {:induction false} ResultsStep(reduce: Reduction, s: System, i: Inputs)
    ensures Results(s) <= Results(SystemStep(reduce, s, i)) && s.accepted <= SystemStep(reduce, s, i).accepted
    ensures i.mReady ==> |SystemStep(reduce, s, i).delivered| == Results(s)
  {}

  lemma {:induction false} ResultsRun(reduce: Reduction, s: System, input: seq<Inputs>)
    ensures Results(s) <= Results(Run(reduce, s, input)) && s.accepted <= Run(reduce, s, input).accepted
    decreases |input|
  {
    if input != [] {
      ResultsStep(reduce, s, input[0]);
      ResultsRun(reduce, SystemStep(reduce, s, input[0]), input[1..]);
    }
  }

  lemma {:induction false} DoneGrows(a: seq<Word>, b: seq<Word>)
    requires a <= b
    ensures SumsOf(a).done <= SumsOf(b).done
    decreases |b|
  {
    if |a| < |b| {
      DoneGrows(a, b[..|b| - 1]);
    } else {
      assert a == b;
    }
  }

  /** From a state of the invariant: one edge, any number of edges without or with the result taken, and one with it taken. */
  lemma {:induction false} HandedOver(reduce: Reduction, s: System, first: Inputs, waits: seq<Inputs>, taken: Inputs)
    requires KeepsValue(reduce) && Inv(s) && taken.mReady
    ensures SumsOf(s.accepted).done <= SystemStep(reduce, Run(reduce, SystemStep(reduce, s, first), waits), taken).delivered
  {
    var x := SystemStep(reduce, s, first);
    var y := Run(reduce, x, waits);
    var z := SystemStep(reduce, y, taken);
    StepAccounts(reduce, s, first);
    ResultsStep(reduce, s, first);
    ResultsRun(reduce, x, waits);
    ResultsStep(reduce, y, taken);
    InvStep(reduce, s, first);
    InvRun(reduce, x, waits);
    InvStep(reduce, y, taken);
    InvDelivers(z);
    DoneGrows(s.accepted, z.accepted);
  }

  /** The other half: the results of all words accepted so far are handed over as soon as the result is taken at one edge after the
      next, so two edges later if it always is, whatever is offered meanwhile. */
  lemma {:induction false} RunHandsOver(data: Bytes64, input: seq<Inputs>, first: Inputs, waits: seq<Inputs>, taken: Inputs)
    requires taken.mReady
    ensures var s := Run(Tree, System(Reset(data), [], []), input);
            SumsOf(s.accepted).done <= Run(Tree, System(Reset(data), [], []), input + [first] + waits + [taken]).delivered
  {
    var start := System(Reset(data), [], []);
    TreeIsReduction();
    Cleared();
    InvRun(Tree, start, input);
    HandedOver(Tree, Run(Tree, start, input), first, waits, taken);
    RunSnoc(Tree, start, input, first);
    RunCat(Tree, start, input + [first], waits);
    RunSnoc(Tree, start, input + [first] + waits, taken);
  }

  /** And the unit does not stop accepting: of words offered at three edges in a row, with the result taken, one at least goes in. */
  lemma {:induction false} RunAccepts(data: Bytes64, input: seq<Inputs>, i: Inputs, j: Inputs, k: Inputs)
    requires i.valid && i.mReady && j.valid && j.mReady && k.valid && k.mReady
    ensures |Run(Tree, System(Reset(data), [], []), input).accepted|
            < |Run(Tree, System(Reset(data), [], []), input + [i] + [j] + [k]).accepted|
  {
    var start := System(Reset(data), [], []);
    TreeIsReduction();
    Cleared();
    InvRun(Tree, start, input);
    RunSnoc(Tree, start, input, i);
    RunSnoc(Tree, start, input + [i], j);
    RunSnoc(Tree, start, input + [i] + [j], k);
    AcceptsOne(Tree, Run(Tree, start, input), i, j, k);
  }

  lemma {:induction false} AcceptsOne(reduce: Reduction, s: System, i: Inputs, j: Inputs, k: Inputs)
    requires Inv(s) && i.valid && i.mReady && j.valid && j.mReady && k.valid && k.mReady
    ensures |s.accepted| < |SystemStep(reduce, SystemStep(reduce, SystemStep(reduce, s, i), j), k).accepted|
  {
    if !s.regs.internalReady {
      OpensUp(reduce, s.regs, i, j);
    }
  }

  /** A unit that is closed opens again within two edges. */
  lemma {:induction false} OpensUp(reduce: Reduction, r: Regs, i: Inputs, j: Inputs)
    requires !r.internalReady && i.mReady && j.mReady && (if Pending(r) then r.last && !r.mValid else r.mValid)
    ensures var z := Clock(reduce, r, i); z.internalReady || (z.mValid && !Pending(z) && Clock(reduce, z, j).internalReady)
  {}

  // ----- the unit -----

  class ChecksumUnit {
    /** The instance of the reduction. */
    const reduce: Reduction
    var prevWord0: Bits16
    var prevWord1: Bits16
    var dataR: Bytes64
    var validR: bool
    var readyR: bool
    var lastR: bool
    var internalReady: bool
    var axisData: Word16
    var axisValid: bool

    function View(): Regs
      reads this
    {
      Regs(prevWord0, prevWord1, dataR, validR, readyR, lastR, internalReady, axisData, axisValid)
    }

    constructor ()
      ensures reduce == Tree && View() == Reset(dataR)
    {
      reduce := Tree;
      prevWord0, prevWord1, dataR, validR, readyR, lastR := AllZero(), AllZero(), seq(64, _ => 0), false, false, false;
      internalReady, axisData, axisValid := true, 0, false;
    }

    /** The sum so far, cleared behind the last word of a packet. */
    method KeepSum(words: (Bits16, Bits16))
      modifies `prevWord0, `prevWord1
      ensures prevWord0 == (if validR && readyR then (if lastR then AllZero() else words.0) else old(prevWord0))
      ensures prevWord1 == (if validR && readyR then (if lastR then AllZero() else words.1) else old(prevWord1))
    {
      if validR && readyR {
        if lastR {
          prevWord0, prevWord1 := AllZero(), AllZero();
        } else {
          prevWord0, prevWord1 := words.0, words.1;
        }
      }
    }

    /** The checksum stays offered until it is taken. */
    method Offer(ended: bool, result: Word16, mReady: bool)
      modifies `axisData, `axisValid
      ensures axisData == (if ended then 0xFFFF - result else old(axisData))
      ensures axisValid == (if ended then true else old(axisValid) && !mReady)
    {
      axisValid := axisValid && !mReady;
      if ended {
        axisData := 0xFFFF - result;
        axisValid := true;
      }
    }

    /** The other registers. */
    method Sample(sValid: bool, sWord: Word, mReady: bool) returns (sReady: bool)
      modifies `internalReady, `dataR, `validR, `readyR, `lastR
      ensures sReady == ((!axisValid || mReady) && old(internalReady))
      ensures dataR == Kept(sWord.lanes) && validR == sValid && readyR == sReady && lastR == sWord.last
      ensures internalReady == (if sValid && sReady && sWord.last then false else if axisValid && mReady then true else old(internalReady))
    {
      sReady := (!axisValid || mReady) && internalReady;
      if sValid && sReady && sWord.last {
        internalReady := false;
      } else if axisValid && mReady {
        internalReady := true;
      }
      dataR, validR, readyR, lastR := Kept(sWord.lanes), sValid, sReady, sWord.last;
    }

    /** The non-blocking assignments of one edge, the tree's outputs given. */
    method Edge(words: (Bits16, Bits16), result: Word16, sValid: bool, sWord: Word, mReady: bool) returns (sReady: bool)
      modifies this
      ensures sReady == Ready(old(View()), Inputs(sValid, sWord, mReady))
      ensures View() == NextRegs(old(View()), Inputs(sValid, sWord, mReady), words, result)
    {
      var ended := validR && readyR && lastR;
      KeepSum(words);
      sReady := Sample(sValid, sWord, mReady);
      Offer(ended, result, mReady);
    }

    /** All registers change together at the clock edge. */
    method ClockEdge(sValid: bool, sWord: Word, mReady: bool) returns (sReady: bool)
      modifies this
      ensures sReady == Ready(old(View()), Inputs(sValid, sWord, mReady))
      ensures View() == Clock(reduce, old(View()), Inputs(sValid, sWord, mReady))
    {
      var words := reduce(TreeInput(dataR, prevWord0, prevWord1));
      sReady := Edge(words, Result(words), sValid, sWord, mReady);
    }
  }
}
