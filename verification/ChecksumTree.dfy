/** The carry-save checksum hardware: the lookup-table bit counters and the tree that reduces 34 words to two with end-around
    carry (checksumRed34to2). A 16-bit word is its sequence of bits, least significant first. */
module ChecksumTree {
  import opened ToeTypes

  function Bit(b: bool): nat { if b then 1 else 0 }

  // ----- the lookup tables -----

  /** The tables of the counters, 16 entries at a time; the 6 to 3 counter has the first four groups of each. */
  const SUM_0: seq<nat> := [0x6996, 0x9669, 0x9669, 0x6996, 0x9669, 0x6996, 0x6996, 0x9669]
  const SUM_1: seq<nat> := [0x177E, 0x7EE8, 0x7EE8, 0xE881, 0x7EE8, 0xE881, 0xE881, 0x8117]
  const SUM_2: seq<nat> := [0x0001, 0x0117, 0x0117, 0x177F, 0x0117, 0x177F, 0x177F, 0x7FFF]

  /** Entry r of a group of 16 whose entry 0 is the leftmost bit. */
  function EntryOf(g: nat, r: nat): bool {
    match r
    case 0 => g / 0x8000 % 2 == 1
    case 1 => g / 0x4000 % 2 == 1
    case 2 => g / 0x2000 % 2 == 1
    case 3 => g / 0x1000 % 2 == 1
    case 4 => g / 0x800 % 2 == 1
    case 5 => g / 0x400 % 2 == 1
    case 6 => g / 0x200 % 2 == 1
    case 7 => g / 0x100 % 2 == 1
    case 8 => g / 0x80 % 2 == 1
    case 9 => g / 0x40 % 2 == 1
    case 10 => g / 0x20 % 2 == 1
    case 11 => g / 0x10 % 2 == 1
    case 12 => g / 8 % 2 == 1
    case 13 => g / 4 % 2 == 1
    case 14 => g / 2 % 2 == 1
    case _ => g % 2 == 1
  }

  function Index4(x3: bool, x2: bool, x1: bool, x0: bool): nat { 8 * Bit(x3) + 4 * Bit(x2) + 2 * Bit(x1) + Bit(x0) }

  datatype Sum3 = Sum3(s2: bool, s1: bool, s0: bool)

  function Amount(s: Sum3): nat { 4 * Bit(s.s2) + 2 * Bit(s.s1) + Bit(s.s0) }

  /** The three tables read in group g at entry r. */
  function Lookup(g: nat, r: nat): Sum3
    requires g < 8
  {
    Sum3(EntryOf(SUM_2[g], r), EntryOf(SUM_1[g], r), EntryOf(SUM_0[g], r))
  }

  function Reduce7(x6: bool, x5: bool, x4: bool, x3: bool, x2: bool, x1: bool, x0: bool): Sum3 {
    Lookup(4 * Bit(x6) + 2 * Bit(x5) + Bit(x4), Index4(x3, x2, x1, x0))
  }

  function Reduce6(x5: bool, x4: bool, x3: bool, x2: bool, x1: bool, x0: bool): Sum3 {
    Lookup(2 * Bit(x5) + Bit(x4), Index4(x3, x2, x1, x0))
  }

  /** The three groups for c ones among the upper inputs. */
  function GroupEntry(c: nat, r: nat): Sum3 {
    match c
    case 0 => Sum3(EntryOf(0x0001, r), EntryOf(0x177E, r), EntryOf(0x6996, r))
    case 1 => Sum3(EntryOf(0x0117, r), EntryOf(0x7EE8, r), EntryOf(0x9669, r))
    case 2 => Sum3(EntryOf(0x177F, r), EntryOf(0xE881, r), EntryOf(0x6996, r))
    case _ => Sum3(EntryOf(0x7FFF, r), EntryOf(0x8117, r), EntryOf(0x9669, r))
  }

  lemma {:induction false} Group0Low(x2: bool, x1: bool, x0: bool)
    ensures Amount(GroupEntry(0, Index4(false, x2, x1, x0))) == 0 + Bit(x2) + Bit(x1) + Bit(x0)
  {
    if x2 { if x1 {} else {} } else { if x1 {} else {} }
  }

  lemma {:induction false} Group0High(x2: bool, x1: bool, x0: bool)
    ensures Amount(GroupEntry(0, Index4(true, x2, x1, x0))) == 1 + Bit(x2) + Bit(x1) + Bit(x0)
  {
    if x2 { if x1 {} else {} } else { if x1 {} else {} }
  }

  lemma {:induction false} Group1Low(x2: bool, x1: bool, x0: bool)
    ensures Amount(GroupEntry(1, Index4(false, x2, x1, x0))) == 1 + Bit(x2) + Bit(x1) + Bit(x0)
  {
    if x2 { if x1 {} else {} } else { if x1 {} else {} }
  }

  lemma {:induction false} Group1High(x2: bool, x1: bool, x0: bool)
    ensures Amount(GroupEntry(1, Index4(true, x2, x1, x0))) == 2 + Bit(x2) + Bit(x1) + Bit(x0)
  {
    if x2 { if x1 {} else {} } else { if x1 {} else {} }
  }

  lemma {:induction false} Group2Low(x2: bool, x1: bool, x0: bool)
    ensures Amount(GroupEntry(2, Index4(false, x2, x1, x0))) == 2 + Bit(x2) + Bit(x1) + Bit(x0)
  {
    if x2 { if x1 {} else {} } else { if x1 {} else {} }
  }

  lemma {:induction false} Group2High(x2: bool, x1: bool, x0: bool)
    ensures Amount(GroupEntry(2, Index4(true, x2, x1, x0))) == 3 + Bit(x2) + Bit(x1) + Bit(x0)
  {
    if x2 { if x1 {} else {} } else { if x1 {} else {} }
  }

  lemma {:induction false} Group3Low(x2: bool, x1: bool, x0: bool)
    ensures Amount(GroupEntry(3, Index4(false, x2, x1, x0))) == 3 + Bit(x2) + Bit(x1) + Bit(x0)
  {
    if x2 { if x1 {} else {} } else { if x1 {} else {} }
  }

  lemma {:induction false} Group3High(x2: bool, x1: bool, x0: bool)
    ensures Amount(GroupEntry(3, Index4(true, x2, x1, x0))) == 4 + Bit(x2) + Bit(x1) + Bit(x0)
  {
    if x2 { if x1 {} else {} } else { if x1 {} else {} }
  }

  /** A table read in the group of its upper inputs counts all of them. */
  lemma {:induction false} LookupCounts(x6: bool, x5: bool, x4: bool, x3: bool, x2: bool, x1: bool, x0: bool, r: nat, s: Sum3)
    requires r == Index4(x3, x2, x1, x0) && s == GroupEntry(Bit(x6) + Bit(x5) + Bit(x4), r)
    ensures Amount(s) == Bit(x6) + Bit(x5) + Bit(x4) + Bit(x3) + Bit(x2) + Bit(x1) + Bit(x0)
  {
    if x3 {
      Group0High(x2, x1, x0); Group1High(x2, x1, x0); Group2High(x2, x1, x0); Group3High(x2, x1, x0);
    } else {
      Group0Low(x2, x1, x0); Group1Low(x2, x1, x0); Group2Low(x2, x1, x0); Group3Low(x2, x1, x0);
    }
  }

  lemma {:induction false} LookupIsGroup(x6: bool, x5: bool, x4: bool, r: nat)
    ensures Lookup(4 * Bit(x6) + 2 * Bit(x5) + Bit(x4), r) == GroupEntry(Bit(x6) + Bit(x5) + Bit(x4), r)
  {}

  /** Each reducer is a bit count: its three outputs are the number of ones among its inputs, in binary. */
  lemma {:induction false} Reduce7Counts(x6: bool, x5: bool, x4: bool, x3: bool, x2: bool, x1: bool, x0: bool)
    ensures Amount(Reduce7(x6, x5, x4, x3, x2, x1, x0))
            == Bit(x6) + Bit(x5) + Bit(x4) + Bit(x3) + Bit(x2) + Bit(x1) + Bit(x0)
  {
    var r := Index4(x3, x2, x1, x0);
    LookupIsGroup(x6, x5, x4, r);
    LookupCounts(x6, x5, x4, x3, x2, x1, x0, r, Lookup(4 * Bit(x6) + 2 * Bit(x5) + Bit(x4), r));
  }

  lemma {:induction false} Reduce6Counts(x5: bool, x4: bool, x3: bool, x2: bool, x1: bool, x0: bool)
    ensures Amount(Reduce6(x5, x4, x3, x2, x1, x0)) == Bit(x5) + Bit(x4) + Bit(x3) + Bit(x2) + Bit(x1) + Bit(x0)
  {
    Reduce7Counts(false, x5, x4, x3, x2, x1, x0);
  }

  // ----- words -----

  type Bits16 = b: seq<bool> | |b| == 16 witness seq(16, _ => false)

  function Value(b: seq<bool>): nat { if b == [] then 0 else Bit(b[0]) + 2 * Value(b[1..]) }

  function Total(ws: seq<Bits16>): nat { if ws == [] then 0 else Value(ws[0]) + Total(ws[1..]) }

  /** Bit j of the input goes to bit (j + 1) % 16: a carry of the highest bit comes back at the lowest. */
  function Rotate(b: Bits16): Bits16 { [b[15]] + b[..15] }

  /** The one's complement value of a sum: 2^16 - 1 taken off until it fits 16 bits. */
  function OnesValue(a: nat): (r: Word16)
    decreases a
  {
    if a < 0x1_0000 then a else OnesValue(a - 65535)
  }

  /** The same one's complement value. */
  predicate Same(a: nat, b: nat) { OnesValue(a) == OnesValue(b) }

  /** It is the value modulo 2^16 - 1, of whose two zeros only nothing but zeros gives the plain one. */
  lemma {:induction false} OnesValueIs(a: nat)
    ensures OnesValue(a) % 65535 == a % 65535 && (OnesValue(a) == 0 <==> a == 0)
  {
    if a >= 0x1_0000 { OnesValueIs(a - 65535); }
  }

  // ----- one group of counters -----

  function AllZero(): Bits16 { seq(16, _ => false) }

  /** Sixteen 7 to 3 counters, one for each bit position. */
  function Columns7(x0: Bits16, x1: Bits16, x2: Bits16, x3: Bits16, x4: Bits16, x5: Bits16, x6: Bits16): (c: seq<Sum3>)
    ensures |c| == 16
  {
    seq(16, j requires 0 <= j < 16 => Reduce7(x6[j], x5[j], x4[j], x3[j], x2[j], x1[j], x0[j]))
  }

  function Columns6(x0: Bits16, x1: Bits16, x2: Bits16, x3: Bits16, x4: Bits16, x5: Bits16): (c: seq<Sum3>)
    ensures |c| == 16
  {
    seq(16, j requires 0 <= j < 16 => Reduce6(x5[j], x4[j], x3[j], x2[j], x1[j], x0[j]))
  }

  function Outputs0(c: seq<Sum3>): (b: seq<bool>)
    ensures |b| == |c|
  {
    seq(|c|, j requires 0 <= j < |c| => c[j].s0)
  }

  function Outputs1(c: seq<Sum3>): (b: seq<bool>)
    ensures |b| == |c|
  {
    seq(|c|, j requires 0 <= j < |c| => c[j].s1)
  }

  function Outputs2(c: seq<Sum3>): (b: seq<bool>)
    ensures |b| == |c|
  {
    seq(|c|, j requires 0 <= j < |c| => c[j].s2)
  }

  /** The three words of a group: the sum bits, and the carries moved by one and by two positions. */
  datatype Triple = Triple(sum: Bits16, carry: Bits16, carry2: Bits16)

  function Outputs(c: seq<Sum3>): Triple
    requires |c| == 16
  {
    Triple(Outputs0(c), Rotate(Outputs1(c)), Rotate(Rotate(Outputs2(c))))
  }

  function Csa7(x0: Bits16, x1: Bits16, x2: Bits16, x3: Bits16, x4: Bits16, x5: Bits16, x6: Bits16): Triple { Outputs(Columns7(x0, x1, x2, x3, x4, x5, x6)) }

  function Csa6(x0: Bits16, x1: Bits16, x2: Bits16, x3: Bits16, x4: Bits16, x5: Bits16): Triple { Outputs(Columns6(x0, x1, x2, x3, x4, x5)) }

  function TripleValue(t: Triple): nat { Value(t.sum) + Value(t.carry) + Value(t.carry2) }

  // ----- a group keeps the total -----

  /** The weighted amounts of the columns. */
  function AmountTotal(c: seq<Sum3>): nat { if c == [] then 0 else Amount(c[0]) + 2 * AmountTotal(c[1..]) }

  lemma {:induction false} AmountsSplit(c: seq<Sum3>)
    ensures AmountTotal(c) == Value(Outputs0(c)) + 2 * Value(Outputs1(c)) + 4 * Value(Outputs2(c))
  {
    if c != [] {
      AmountsSplit(c[1..]);
      var x, y, z := Outputs0(c), Outputs1(c), Outputs2(c);
      assert x[1..] == Outputs0(c[1..]) && y[1..] == Outputs1(c[1..]) && z[1..] == Outputs2(c[1..]);
    }
  }

  lemma {:induction false} ValueStep(b: Bits16, j: nat)
    requires j < 16
    ensures Value(b[j..]) == Bit(b[j]) + 2 * Value(b[j + 1..])
  {
    assert b[j..][1..] == b[j + 1..];
  }

  lemma {:induction false} AmountStep(c: seq<Sum3>, j: nat)
    requires j < |c|
    ensures AmountTotal(c[j..]) == Amount(c[j]) + 2 * AmountTotal(c[j + 1..])
  {
    assert c[j..][1..] == c[j + 1..];
  }

  lemma {:induction false} ColumnsAdd(x0: Bits16, x1: Bits16, x2: Bits16, x3: Bits16, x4: Bits16, x5: Bits16, x6: Bits16, c: seq<Sum3>, j: nat)
    requires c == Columns7(x0, x1, x2, x3, x4, x5, x6) && j <= 16
    ensures Value(x0[j..]) + Value(x1[j..]) + Value(x2[j..]) + Value(x3[j..]) + Value(x4[j..]) + Value(x5[j..]) + Value(x6[j..])
            == AmountTotal(c[j..])
    decreases 16 - j
  {
    if j < 16 {
      ColumnsAdd(x0, x1, x2, x3, x4, x5, x6, c, j + 1);
      Reduce7Counts(x6[j], x5[j], x4[j], x3[j], x2[j], x1[j], x0[j]);
      AmountStep(c, j);
      ValueStep(x0, j);
      ValueStep(x1, j);
      ValueStep(x2, j);
      ValueStep(x3, j);
      ValueStep(x4, j);
      ValueStep(x5, j);
      ValueStep(x6, j);
    }
  }

  lemma {:induction false} ValueSnoc(b: seq<bool>, x: bool, n: nat)
    requires |b| == n
    ensures Value(b + [x]) == Value(b) + Pow2(n) * Bit(x)
  {
    if b == [] {
      assert [x][1..] == [];
    } else {
      ValueSnoc(b[1..], x, n - 1);
      assert (b + [x])[1..] == b[1..] + [x];
    }
  }

  /** Rotating is doubling with end-around carry. */
  lemma {:induction false} RotateDoubles(b: Bits16)
    ensures Value(Rotate(b)) + 65535 * Bit(b[15]) == 2 * Value(b)
  {
    assert b[..15] + [b[15]] == b;
    ValueSnoc(b[..15], b[15], 15);
    assert Rotate(b)[1..] == b[..15];
    assert Pow2(15) == 32768;
  }

  lemma {:induction false} SameByMultiple(a: nat, b: nat, k: nat)
    requires a == b + 65535 * k && (b == 0 ==> k == 0)
    ensures Same(a, b)
    decreases k
  {
    if k > 0 { SameByMultiple(a - 65535, b, k - 1); }
  }

  lemma {:induction false} OutputsKeep(c: seq<Sum3>)
    requires |c| == 16
    ensures Same(AmountTotal(c), TripleValue(Outputs(c)))
  {
    AmountsSplit(c);
    var d, e := Outputs1(c), Outputs2(c);
    RotateDoubles(d);
    RotateDoubles(e);
    RotateDoubles(Rotate(e));
    SameByMultiple(AmountTotal(c), TripleValue(Outputs(c)), Bit(d[15]) + 2 * Bit(e[15]) + Bit(Rotate(e)[15]));
  }

  lemma {:induction false} WholeColumns(x0: Bits16, x1: Bits16, x2: Bits16, x3: Bits16, x4: Bits16, x5: Bits16, x6: Bits16, c: seq<Sum3>)
    requires c == Columns7(x0, x1, x2, x3, x4, x5, x6)
    ensures Value(x0) + Value(x1) + Value(x2) + Value(x3) + Value(x4) + Value(x5) + Value(x6) == AmountTotal(c)
  {
    ColumnsAdd(x0, x1, x2, x3, x4, x5, x6, c, 0);
    assert c[0..] == c;
    assert x0[0..] == x0 && x1[0..] == x1 && x2[0..] == x2 && x3[0..] == x3 && x4[0..] == x4 && x5[0..] == x5 && x6[0..] == x6;
  }

  /** Seven words become three of the same one's complement value. */
  lemma {:induction false} Csa7Keeps(x0: Bits16, x1: Bits16, x2: Bits16, x3: Bits16, x4: Bits16, x5: Bits16, x6: Bits16, t: Triple)
    requires t == Csa7(x0, x1, x2, x3, x4, x5, x6)
    ensures Same(Value(x0) + Value(x1) + Value(x2) + Value(x3) + Value(x4) + Value(x5) + Value(x6), TripleValue(t))
  {
    var c := Columns7(x0, x1, x2, x3, x4, x5, x6);
    WholeColumns(x0, x1, x2, x3, x4, x5, x6, c);
    OutputsKeep(c);
  }

  lemma {:induction false} NoBits(j: nat)
    requires j <= 16
    ensures Value(AllZero()[j..]) == 0
    decreases 16 - j
  {
    if j < 16 {
      NoBits(j + 1);
      ValueStep(AllZero(), j);
    }
  }

  lemma {:induction false} SixIsSeven(x0: Bits16, x1: Bits16, x2: Bits16, x3: Bits16, x4: Bits16, x5: Bits16)
    ensures Csa6(x0, x1, x2, x3, x4, x5) == Csa7(x0, x1, x2, x3, x4, x5, AllZero())
  {
    assert Columns6(x0, x1, x2, x3, x4, x5) == Columns7(x0, x1, x2, x3, x4, x5, AllZero());
  }

  lemma {:induction false} Csa6Keeps(x0: Bits16, x1: Bits16, x2: Bits16, x3: Bits16, x4: Bits16, x5: Bits16, t: Triple)
    requires t == Csa6(x0, x1, x2, x3, x4, x5)
    ensures Same(Value(x0) + Value(x1) + Value(x2) + Value(x3) + Value(x4) + Value(x5), TripleValue(t))
  {
    SixIsSeven(x0, x1, x2, x3, x4, x5);
    assert Value(AllZero()) == 0 by {
      NoBits(0);
      assert AllZero()[0..] == AllZero();
    }
    Csa7Keeps(x0, x1, x2, x3, x4, x5, AllZero(), t);
  }

  // ----- the last level, and the fold -----

  function Xor3(x: Bits16, y: Bits16, z: Bits16): Bits16 { seq(16, j requires 0 <= j < 16 => (x[j] != y[j]) != z[j]) }

  function Major3(x: Bits16, y: Bits16, z: Bits16): Bits16 {
    seq(16, j requires 0 <= j < 16 => (x[j] && y[j]) || (x[j] && z[j]) || (y[j] && z[j]))
  }

  lemma {:induction false} FullAdders(x: Bits16, y: Bits16, z: Bits16, j: nat)
    requires j <= 16
    ensures Value(x[j..]) + Value(y[j..]) + Value(z[j..]) == Value(Xor3(x, y, z)[j..]) + 2 * Value(Major3(x, y, z)[j..])
    decreases 16 - j
  {
    if j < 16 {
      FullAdders(x, y, z, j + 1);
      var s, c := Xor3(x, y, z), Major3(x, y, z);
      assert x[j..][1..] == x[j + 1..] && y[j..][1..] == y[j + 1..] && z[j..][1..] == z[j + 1..];
      assert s[j..][1..] == s[j + 1..] && c[j..][1..] == c[j + 1..];
    }
  }

  lemma {:induction false} LastLevelKeeps(x: Bits16, y: Bits16, z: Bits16)
    ensures Same(Value(x) + Value(y) + Value(z), Value(Xor3(x, y, z)) + Value(Rotate(Major3(x, y, z))))
  {
    FullAdders(x, y, z, 0);
    assert x[0..] == x && y[0..] == y && z[0..] == z && Xor3(x, y, z)[0..] == Xor3(x, y, z) && Major3(x, y, z)[0..] == Major3(x, y, z);
    RotateDoubles(Major3(x, y, z));
    SameByMultiple(Value(x) + Value(y) + Value(z), Value(Xor3(x, y, z)) + Value(Rotate(Major3(x, y, z))), Bit(Major3(x, y, z)[15]));
  }

  // ----- the tree -----

  /** Groups of seven words and a last one of six: for 34 words four and one. */
  function Level1(ws: seq<Bits16>): (l: seq<Triple>)
    requires |ws| % 7 == 6
    ensures |l| == |ws| / 7 + 1
  {
    if |ws| == 6 then [Csa6(ws[0], ws[1], ws[2], ws[3], ws[4], ws[5])]
    else [Csa7(ws[0], ws[1], ws[2], ws[3], ws[4], ws[5], ws[6])] + Level1(ws[7..])
  }

  /** Two groups of seven words and a free word. */
  datatype Wires2 = Wires2(g0: Triple, g1: Triple, free: Bits16)

  function Level2(l: seq<Triple>): Wires2
    requires |l| == 5
  {
    Wires2(Csa7(l[0].sum, l[0].carry, l[0].carry2, l[1].sum, l[1].carry, l[1].carry2, l[2].sum),
           Csa7(l[2].carry, l[2].carry2, l[3].sum, l[3].carry, l[3].carry2, l[4].sum, l[4].carry),
           l[4].carry2)
  }

  function Level3(l: Wires2): Triple { Csa7(l.g0.sum, l.g0.carry, l.g0.carry2, l.g1.sum, l.g1.carry, l.g1.carry2, l.free) }

  function Level4(l: Triple): (Bits16, Bits16) { (Xor3(l.carry2, l.carry, l.sum), Rotate(Major3(l.carry2, l.carry, l.sum))) }

  type Words34 = ws: seq<Bits16> | |ws| == 34 witness seq(34, _ => AllZero())

  /** 34 words to two. */
  function Tree(ws: Words34): (Bits16, Bits16) {
    Level4(Level3(Level2(Level1(ws))))
  }

  function Value1(l: seq<Triple>): nat { if l == [] then 0 else TripleValue(l[0]) + Value1(l[1..]) }

  function Value2(l: Wires2): nat { TripleValue(l.g0) + TripleValue(l.g1) + Value(l.free) }

  lemma {:induction false} ValueOfSum(a: nat, c: nat)
    ensures OnesValue(a + c) == OnesValue(OnesValue(a) + c)
    decreases a
  {
    if a >= 0x1_0000 {
      ValueOfSum(a - 65535, c);
      assert OnesValue(a + c) == OnesValue(a - 65535 + c);
    }
  }

  lemma {:induction false} SameSum(a: nat, b: nat, c: nat, d: nat)
    requires Same(a, b) && Same(c, d)
    ensures Same(a + c, b + d)
  {
    ValueOfSum(a, c);
    ValueOfSum(b, c);
    ValueOfSum(c, b);
    ValueOfSum(d, b);
  }

  lemma {:induction false} TotalStep(ws: seq<Bits16>, k: nat)
    requires k < |ws|
    ensures Total(ws[k..]) == Value(ws[k]) + Total(ws[k + 1..])
  {
    assert ws[k..][1..] == ws[k + 1..];
  }

  lemma {:induction false} SixSteps(ws: seq<Bits16>, k: nat)
    requires k + 6 <= |ws|
    ensures Total(ws[k..]) == Value(ws[k]) + Value(ws[k + 1]) + Value(ws[k + 2]) + Value(ws[k + 3]) + Value(ws[k + 4]) + Value(ws[k + 5])
                              + Total(ws[k + 6..])
  {
    TotalStep(ws, k);
    TotalStep(ws, k + 1);
    TotalStep(ws, k + 2);
    TotalStep(ws, k + 3);
    TotalStep(ws, k + 4);
    TotalStep(ws, k + 5);
  }

  lemma {:induction false} GroupOfSix(ws: seq<Bits16>, t: Triple)
    requires |ws| == 6 && t == Csa6(ws[0], ws[1], ws[2], ws[3], ws[4], ws[5])
    ensures Same(Total(ws), TripleValue(t))
  {
    SixSteps(ws, 0);
    assert ws[0..] == ws && ws[6..] == [];
    Csa6Keeps(ws[0], ws[1], ws[2], ws[3], ws[4], ws[5], t);
  }

  lemma {:induction false} GroupOfSeven(ws: seq<Bits16>, t: Triple, rest: nat)
    requires |ws| >= 7 && t == Csa7(ws[0], ws[1], ws[2], ws[3], ws[4], ws[5], ws[6]) && Same(Total(ws[7..]), rest)
    ensures Same(Total(ws), TripleValue(t) + rest)
  {
    var sum := Value(ws[0]) + Value(ws[1]) + Value(ws[2]) + Value(ws[3]) + Value(ws[4]) + Value(ws[5]) + Value(ws[6]);
    SevenSteps(ws, sum);
    Csa7Keeps(ws[0], ws[1], ws[2], ws[3], ws[4], ws[5], ws[6], t);
    SameSum(sum, TripleValue(t), Total(ws[7..]), rest);
  }

  lemma {:induction false} SevenSteps(ws: seq<Bits16>, sum: nat)
    requires |ws| >= 7
    requires sum == Value(ws[0]) + Value(ws[1]) + Value(ws[2]) + Value(ws[3]) + Value(ws[4]) + Value(ws[5]) + Value(ws[6])
    ensures Total(ws) == sum + Total(ws[7..])
  {
    SixSteps(ws, 0);
    TotalStep(ws, 6);
    assert ws[0..] == ws;
  }

  lemma {:induction false} Level1Keeps(ws: seq<Bits16>)
    requires |ws| % 7 == 6
    ensures Same(Total(ws), Value1(Level1(ws)))
  {
    var l := Level1(ws);
    if |ws| == 6 {
      GroupOfSix(ws, l[0]);
      assert l[1..] == [];
    } else {
      Level1Keeps(ws[7..]);
      assert l[1..] == Level1(ws[7..]);
      GroupOfSeven(ws, l[0], Value1(l[1..]));
    }
  }

  lemma {:induction false} Value1Step(l: seq<Triple>, k: nat)
    requires k < |l|
    ensures Value1(l[k..]) == TripleValue(l[k]) + Value1(l[k + 1..])
  {
    assert l[k..][1..] == l[k + 1..];
  }

  lemma {:induction false} Value1OfFive(l: seq<Triple>)
    requires |l| == 5
    ensures Value1(l) == TripleValue(l[0]) + TripleValue(l[1]) + TripleValue(l[2]) + TripleValue(l[3]) + TripleValue(l[4])
  {
    assert l[0..] == l && l[5..] == [];
    Value1Step(l, 0);
    Value1Step(l, 1);
    Value1Step(l, 2);
    Value1Step(l, 3);
    Value1Step(l, 4);
  }

  lemma {:induction false} SameOfThree(a: nat, a': nat, b: nat, b': nat, c: nat)
    requires Same(a, a') && Same(b, b')
    ensures Same(a + b + c, a' + b' + c)
  {
    SameSum(a, a', b, b');
    SameSum(a + b, a' + b', c, c);
  }

  lemma {:induction false} Level2Sums(l: seq<Triple>, m: Wires2)
    requires |l| == 5 && m.free == l[4].carry2
    requires Same(TripleValue(l[0]) + TripleValue(l[1]) + Value(l[2].sum), TripleValue(m.g0))
    requires Same(Value(l[2].carry) + Value(l[2].carry2) + TripleValue(l[3]) + Value(l[4].sum) + Value(l[4].carry), TripleValue(m.g1))
    ensures Same(Value1(l), Value2(m))
  {
    Value1OfFive(l);
    SameOfThree(TripleValue(l[0]) + TripleValue(l[1]) + Value(l[2].sum), TripleValue(m.g0),
                Value(l[2].carry) + Value(l[2].carry2) + TripleValue(l[3]) + Value(l[4].sum) + Value(l[4].carry), TripleValue(m.g1),
                Value(m.free));
  }

  lemma {:induction false} Level2First(l: seq<Triple>, m: Wires2)
    requires |l| == 5 && m == Level2(l)
    ensures Same(TripleValue(l[0]) + TripleValue(l[1]) + Value(l[2].sum), TripleValue(m.g0))
  {
    Csa7Keeps(l[0].sum, l[0].carry, l[0].carry2, l[1].sum, l[1].carry, l[1].carry2, l[2].sum, m.g0);
  }

  lemma {:induction false} Level2Second(l: seq<Triple>, m: Wires2)
    requires |l| == 5 && m == Level2(l)
    ensures Same(Value(l[2].carry) + Value(l[2].carry2) + TripleValue(l[3]) + Value(l[4].sum) + Value(l[4].carry), TripleValue(m.g1))
  {
    Csa7Keeps(l[2].carry, l[2].carry2, l[3].sum, l[3].carry, l[3].carry2, l[4].sum, l[4].carry, m.g1);
  }

  lemma {:induction false} Level2Keeps(l: seq<Triple>, m: Wires2)
    requires |l| == 5 && m == Level2(l)
    ensures Same(Value1(l), Value2(m))
  {
    Level2First(l, m);
    Level2Second(l, m);
    Level2Sums(l, m);
  }

  lemma {:induction false} Level3Keeps(m: Wires2, t: Triple)
    requires t == Level3(m)
    ensures Same(Value2(m), TripleValue(t))
  {
    Csa7Keeps(m.g0.sum, m.g0.carry, m.g0.carry2, m.g1.sum, m.g1.carry, m.g1.carry2, m.free, t);
  }

  lemma {:induction false} Level4Keeps(t: Triple, r: (Bits16, Bits16))
    requires r == Level4(t)
    ensures Same(TripleValue(t), Value(r.0) + Value(r.1))
  {
    LastLevelKeeps(t.carry2, t.carry, t.sum);
  }

  predicate SameAsPair(a: nat, r: (Bits16, Bits16)) { Same(a, Value(r.0) + Value(r.1)) }

  /** The tree keeps the one's complement value of its 34 inputs. */
  lemma {:induction false} TreeKeeps(ws: Words34, r: (Bits16, Bits16))
    requires r == Tree(ws)
    ensures SameAsPair(Total(ws), r)
  {
    var l := Level1(ws);
    var m := Level2(l);
    var t := Level3(m);
    Level1Keeps(ws);
    Level2Keeps(l, m);
    Level3Keeps(m, t);
    Level4Keeps(t, r);
  }

  /** The final 17-bit addition with its carry added back. */
  function Fold(a: Word16, b: Word16): Word16 { if a + b >= 0x1_0000 then (a + b + 1) % 0x1_0000 else a + b }

  lemma {:induction false} FoldKeeps(a: Word16, b: Word16)
    ensures Same(a + b, Fold(a, b))
  {}

  lemma {:induction false} ValueBound(b: seq<bool>)
    ensures Value(b) < Pow2(|b|)
  {
    if b != [] { ValueBound(b[1..]); }
  }
}
