/** tx_ReadMemAccessBreakdown and tx_MemDataRead_aligner: a read that passes the end of the circular buffer becomes two memory
    commands, and the two answers are joined into one well-packed packet. */
module BufferRead {
  import opened ToeTypes
  import opened Words
  import opened CircularBuffer
  import W = BufferWrite

  /** What the aligner is told: two accesses or one, and the valid lanes of the first one's last word. */
  datatype DoubleAccess = DoubleAccess(double: bool, offset: nat)

  // ----- the commands -----

  /** Bit WINDOW_BITS of next_addr, the WINDOW_BITS + 1 low bits of the full address plus the length. */
  predicate Breaks(addr: Seq32, length: Word16) { (addr + length) % (2 * BUFFER_SIZE) >= BUFFER_SIZE }

  /** txEngBreakTemp has 16 bits. */
  function BreakLength(addr: Seq32): Word16 { (BUFFER_SIZE - addr) % 0x1_0000 }

  function Commands(addr: Seq32, length: Word16): seq<Cmd> {
    if !Breaks(addr, length) then [Cmd(addr, length)]
    else [Cmd(addr, BreakLength(addr)), Cmd(BufferStart(addr), (length - BreakLength(addr)) % 0x1_0000)]
  }

  function Access(addr: Seq32, length: Word16): DoubleAccess {
    if !Breaks(addr, length) then DoubleAccess(false, 0) else DoubleAccess(true, BreakLength(addr) % LANES)
  }

  /** Bit WINDOW_BITS of the address, which is bit 0 of the session number. */
  predicate BitClear(addr: Seq32) { addr / BUFFER_SIZE % 2 == 0 }

  /** The overflow test is right for an address exactly when its bit WINDOW_BITS is clear; with the bit set it is wrong for every
      length. */
  lemma {:induction false} BreaksExactly(addr: Seq32, length: Word16)
    ensures (Breaks(addr, length) <==> Offset(addr) + length >= BUFFER_SIZE) <==> BitClear(addr)
  {
    var s: int := addr / BUFFER_SIZE;
    var o: int := Offset(addr);
    assert addr == s * BUFFER_SIZE + o;
    var h: int := s / 2;
    if s % 2 == 0 {
      assert addr + length == h * (2 * BUFFER_SIZE) + (o + length);
      assert (addr + length) % (2 * BUFFER_SIZE) == o + length;
    } else {
      assert addr + length == h * (2 * BUFFER_SIZE) + (BUFFER_SIZE + o + length);
      if o + length < BUFFER_SIZE {
        assert (addr + length) % (2 * BUFFER_SIZE) == BUFFER_SIZE + o + length;
      } else {
        assert addr + length == (h + 1) * (2 * BUFFER_SIZE) + (o + length - BUFFER_SIZE);
        assert (addr + length) % (2 * BUFFER_SIZE) == o + length - BUFFER_SIZE;
      }
    }
  }

  lemma {:induction false} CutLength(addr: Seq32)
    ensures BreakLength(addr) == (BUFFER_SIZE - Offset(addr)) % 0x1_0000
  {
    var s: int := addr / BUFFER_SIZE;
    assert addr == s * BUFFER_SIZE + Offset(addr);
    assert BUFFER_SIZE - addr == (BUFFER_SIZE - Offset(addr)) + (0 - 4 * s) * 0x1_0000;
  }

  /** With the bit clear, the commands are the range cut at the end of the buffer. */
  lemma {:induction false} CommandsAre(addr: Seq32, length: Word16)
    requires BitClear(addr)
    ensures Offset(addr) + length < BUFFER_SIZE ==> Commands(addr, length) == [Cmd(addr, length)]
    ensures Offset(addr) + length >= BUFFER_SIZE ==>
              var n := BUFFER_SIZE - Offset(addr);
              && Commands(addr, length) == [Cmd(addr, n), Cmd(BufferStart(addr), length - n)]
              && Access(addr, length) == DoubleAccess(true, n % LANES)
  {
    BreaksExactly(addr, length);
    CutLength(addr);
  }

  // ----- joining the two answers -----

  datatype Phase = Single | Block0 | Aligned | FirstMerge | Block1 | ExtraData | Done

  datatype Reader = Reader(phase: Phase, offset0: nat, offset1: nat, prev: Word)

  predicate WellFormed(r: Reader) { r.offset0 < LANES && r.offset1 == (LANES - r.offset0) % LANES }

  /** The state after READ_ACCESS. */
  function Start(a: DoubleAccess, prev: Word): Reader {
    Reader(if a.double then Block0 else Single, a.offset, (LANES - a.offset) % LANES, prev)
  }

  function AfterMerge(r: Reader, x: Word, lanes: Lanes): (Reader, seq<Word>)
    requires WellFormed(r)
  {
    var more := x.lanes[r.offset1].keep;
    (r.(prev := x, phase := if !x.last then Block1 else if more then ExtraData else Done), [Word(lanes, x.last && !more)])
  }

  function TakeWord(r: Reader, x: Word): (t: (Reader, seq<Word>))
    requires WellFormed(r)
    ensures WellFormed(t.0)
  {
    match r.phase
    case Block0 =>
      if !x.last then (r.(prev := x), [Word(x.lanes, false)])
      else if r.offset0 == 0 then (r.(prev := x, phase := Aligned), [Word(x.lanes, false)])
      else (r.(prev := x, phase := FirstMerge), [])
    case FirstMerge => AfterMerge(r, x, AlignFrom(x, r.prev, r.offset0))
    case Block1 => AfterMerge(r, x, AlignTo(x, r.prev, r.offset1))
    case _ => (r.(phase := if x.last then Done else r.phase), [x])
  }

  function Join(r: Reader, xs: seq<Word>): seq<Word>
    requires WellFormed(r)
    decreases |xs|
  {
    if xs == [] then (if r.phase.ExtraData? then [Word(AlignTo(ZERO, r.prev, r.offset1), true)] else [])
    else var (v, ys) := TakeWord(r, xs[0]); ys + Join(v, xs[1..])
  }

  lemma {:induction false} PassThrough(r: Reader, xs: seq<Word>)
    requires WellFormed(r) && (r.phase.Single? || r.phase.Aligned?) && LastOnly(xs) && xs != []
    ensures Join(r, xs) == xs
    decreases |xs|
  {
    var (v, ys) := TakeWord(r, xs[0]);
    if |xs| == 1 { OnlyWord(xs); }
    if |xs| > 1 {
      LastOnlyTail(xs);
      PassThrough(v, xs[1..]);
    } else {
      assert Join(v, xs[1..]) == [];
    }
  }

  /** The words of the first answer before its last one. */
  function Unlast(xs: seq<Word>): seq<Word> { seq(|xs|, i requires 0 <= i < |xs| => Word(xs[i].lanes, false)) }

  /** A word of the first answer that is not its last. */
  lemma {:induction false} BlockStep(r: Reader, xs: seq<Word>, rest: seq<Word>)
    requires WellFormed(r) && r.phase.Block0? && LastOnly(xs) && |xs| > 1
    ensures Join(r, xs + rest) == [Word(xs[0].lanes, false)] + Join(r.(prev := xs[0]), xs[1..] + rest)
  {
    assert LastAt(xs, 0);
    assert (xs + rest)[1..] == xs[1..] + rest;
  }

  lemma {:induction false} UnlastCons(xs: seq<Word>, t: seq<Word>)
    requires |xs| > 0
    ensures [Word(xs[0].lanes, false)] + (Unlast(xs[1..]) + t) == Unlast(xs) + t
    ensures |xs| > 1 ==> [Word(xs[0].lanes, false)] + (Unlast(xs[1..][..|xs| - 2]) + t) == Unlast(xs[..|xs| - 1]) + t
  {
    assert |xs| > 1 ==> xs[1..][..|xs| - 2] == xs[..|xs| - 1][1..];
  }

  lemma {:induction false} FirstBlockAligned(r: Reader, xs: seq<Word>, rest: seq<Word>)
    requires WellFormed(r) && r.phase.Block0? && r.offset0 == 0 && LastOnly(xs) && xs != []
    ensures Join(r, xs + rest) == Unlast(xs) + Join(r.(prev := xs[|xs| - 1], phase := Aligned), rest)
    decreases |xs|
  {
    if |xs| == 1 {
      OnlyWord(xs);
      assert (xs + rest)[1..] == rest;
      assert Unlast(xs) == [Word(xs[0].lanes, false)];
    } else {
      LastOnlyTail(xs);
      BlockStep(r, xs, rest);
      FirstBlockAligned(r.(prev := xs[0]), xs[1..], rest);
      UnlastCons(xs, Join(r.(prev := xs[|xs| - 1], phase := Aligned), rest));
    }
  }

  lemma {:induction false} FirstBlockMerge(r: Reader, xs: seq<Word>, rest: seq<Word>)
    requires WellFormed(r) && r.phase.Block0? && r.offset0 != 0 && LastOnly(xs) && xs != []
    ensures Join(r, xs + rest) == Unlast(xs[..|xs| - 1]) + Join(r.(prev := xs[|xs| - 1], phase := FirstMerge), rest)
    decreases |xs|
  {
    if |xs| == 1 {
      OnlyWord(xs);
      assert (xs + rest)[1..] == rest;
      assert Unlast(xs[..0]) == [];
    } else {
      LastOnlyTail(xs);
      BlockStep(r, xs, rest);
      FirstBlockMerge(r.(prev := xs[0]), xs[1..], rest);
      UnlastCons(xs, Join(r.(prev := xs[|xs| - 1], phase := FirstMerge), rest));
    }
  }

  /** BREAKDOWN_BLOCK_1 realigns by the second offset. */
  lemma {:induction false} BlockShifts(r: Reader, xs: seq<Word>)
    requires WellFormed(r) && r.phase.Block1? && r.offset0 != 0 && LastOnly(xs) && xs != []
    ensures Join(r, xs) == Shift(r.prev.lanes, xs, r.offset1)
    decreases |xs|
  {
    var (v, ys) := TakeWord(r, xs[0]);
    if |xs| == 1 { OnlyWord(xs); }
    if |xs| > 1 {
      LastOnlyTail(xs);
      BlockShifts(v, xs[1..]);
    } else if v.phase.ExtraData? {
      ExtraShifts(v);
    }
  }

  lemma {:induction false} ExtraShifts(r: Reader)
    requires WellFormed(r) && r.phase.ExtraData? && r.offset0 != 0
    ensures Join(r, []) == Shift(r.prev.lanes, [], r.offset1)
  {
    assert Blank(LANES)[..r.offset1] == Blank(r.offset1);
  }

  lemma {:induction false} MergeShifts(r: Reader, xs: seq<Word>)
    requires WellFormed(r) && r.phase.FirstMerge? && r.offset0 != 0 && LastOnly(xs) && xs != []
    ensures Join(r, xs) == Shift(Held(r.prev.lanes, r.offset0), xs, r.offset1)
  {
    var (v, ys) := TakeWord(r, xs[0]);
    if |xs| == 1 { OnlyWord(xs); }
    var h := Held(r.prev.lanes, r.offset0);
    assert h[r.offset1..] == r.prev.lanes[..r.offset0];
    assert AlignFrom(xs[0], r.prev, r.offset0) == h[r.offset1..] + xs[0].lanes[..r.offset1];
    if |xs| > 1 {
      LastOnlyTail(xs);
      BlockShifts(v, xs[1..]);
    } else if v.phase.ExtraData? {
      ExtraShifts(v);
    }
  }

  lemma {:induction false} FlatUnlast(xs: seq<Word>)
    ensures Flat(Unlast(xs)) == Flat(xs)
  {
    if xs != [] {
      FlatUnlast(xs[1..]);
      assert Unlast(xs)[1..] == Unlast(xs[1..]);
    }
  }

  lemma {:induction false} LastOnlyBehind(full: seq<Word>, ys: seq<Word>)
    requires (forall i :: 0 <= i < |full| ==> !full[i].last) && LastOnly(ys) && ys != []
    ensures LastOnly(full + ys)
  {
    forall i | 0 <= i < |full + ys| ensures LastAt(full + ys, i) { if i >= |full| { assert LastAt(ys, i - |full|); } }
  }

  lemma {:induction false} WordsForSum(n: nat, l: nat)
    ensures WordsFor(LANES * n + l) == n + WordsFor(l)
  {}

  /** Full words ahead of a packet. */
  lemma {:induction false} PackedBehind(full: seq<Word>, ys: seq<Word>, p: seq<Byte>, q: seq<Byte>)
    requires |p| == LANES * |full| && Carries(Flat(full), p) && (forall i :: 0 <= i < |full| ==> !full[i].last) && Packed(ys, q)
    ensures Packed(full + ys, p + q)
  {
    LastOnlyBehind(full, ys);
    FlatCat(full, ys);
    CarriesCat(Flat(full), p, Flat(ys), q);
    WordsForSum(|full|, |q|);
  }

  lemma {:induction false} JoinAligned(r: Reader, xs: seq<Word>, ys: seq<Word>, p: seq<Byte>, q: seq<Byte>)
    requires r.phase.Block0? && WellFormed(r) && r.offset0 == 0 && |p| % LANES == 0 && Packed(xs, p) && Packed(ys, q)
    ensures Packed(Join(r, xs + ys), p + q)
  {
    assert Join(r, xs + ys) == Unlast(xs) + ys by {
      FirstBlockAligned(r, xs, ys);
      PassThrough(r.(prev := xs[|xs| - 1], phase := Aligned), ys);
    }
    FlatUnlast(xs);
    PackedBehind(Unlast(xs), ys, p, q);
  }

  /** The full words of the first answer. */
  lemma {:induction false} FullWords(xs: seq<Word>, p: seq<Byte>, n: nat)
    requires Carries(Flat(xs), p) && LANES * n <= |p| && n < |xs|
    ensures Carries(Flat(Unlast(xs[..n])), p[..LANES * n])
  {
    var head := xs[..n];
    assert Carries(Flat(head), p[..LANES * n]) by {
      FlatSplit(xs, n);
      CarriesPrefix(Flat(xs), p, LANES * n);
    }
    FlatUnlast(head);
  }

  lemma {:induction false} MergedWords(r: Reader, xs: seq<Word>, ys: seq<Word>)
    requires r.phase.Block0? && WellFormed(r) && r.offset0 != 0 && LastOnly(xs) && xs != [] && LastOnly(ys) && ys != []
    ensures var n := |xs| - 1;
            Join(r, xs + ys) == Unlast(xs[..n]) + Shift(Held(xs[n].lanes, r.offset0), ys, r.offset1)
  {
    FirstBlockMerge(r, xs, ys);
    MergeShifts(r.(prev := xs[|xs| - 1], phase := FirstMerge), ys);
  }

  lemma {:induction false} BytesAssociate(a: seq<Byte>, b: seq<Byte>, c: seq<Byte>)
    ensures a + (b + c) == (a + b) + c && (a + b)[..|a|] == a && (a + b)[|a|..] == b
  {}

  lemma {:induction false} PartCounts(a: nat, b: nat)
    requires a % LANES == 0 && 0 < b < LANES
    ensures LANES * (WordsFor(a + b) - 1) == a
  {}

  /** The full words of the first answer, which carry a. */
  lemma {:induction false} FullPart(xs: seq<Word>, a: seq<Byte>, b: seq<Byte>)
    requires xs != [] && LANES * (|xs| - 1) == |a| && Carries(Flat(xs), a + b)
    ensures Carries(Flat(Unlast(xs[..|xs| - 1])), a)
  {
    FullWords(xs, a + b, |xs| - 1);
    BytesAssociate(a, b, []);
  }

  /** The rest b of the first answer joined with the second. */
  lemma {:induction false} MergedPart(xs: seq<Word>, ys: seq<Word>, a: seq<Byte>, b: seq<Byte>, q: seq<Byte>)
    requires xs != [] && LANES * (|xs| - 1) == |a| && 0 < |b| < LANES && Carries(Flat(xs), a + b) && Packed(ys, q)
    ensures Packed(Shift(Held(xs[|xs| - 1].lanes, |b|), ys, LANES - |b|), b + q)
  {
    HeldCarries(xs, |xs| - 1, a, b, ys, q);
    ShiftPacked(Held(xs[|xs| - 1].lanes, |b|), ys, LANES - |b|, b + q);
  }

  lemma {:induction false} JoinParts(full: seq<Word>, rest: seq<Word>, a: seq<Byte>, b: seq<Byte>, q: seq<Byte>)
    requires |a| == LANES * |full| && Carries(Flat(full), a) && (forall i :: 0 <= i < |full| ==> !full[i].last)
    requires Packed(rest, b + q)
    ensures Packed(full + rest, (a + b) + q)
  {
    PackedBehind(full, rest, a, b + q);
    BytesAssociate(a, b, q);
  }

  lemma {:induction false} JoinMerged(r: Reader, xs: seq<Word>, ys: seq<Word>, a: seq<Byte>, b: seq<Byte>, q: seq<Byte>)
    requires r.phase.Block0? && WellFormed(r) && r.offset0 == |b| && 0 < |b| < LANES
    requires xs != [] && LastOnly(xs) && LANES * (|xs| - 1) == |a| && Carries(Flat(xs), a + b) && Packed(ys, q)
    ensures Packed(Join(r, xs + ys), (a + b) + q)
  {
    var full, rest := Unlast(xs[..|xs| - 1]), Shift(Held(xs[|xs| - 1].lanes, |b|), ys, LANES - |b|);
    assert Join(r, xs + ys) == full + rest by { MergedWords(r, xs, ys); }
    assert Carries(Flat(full), a) by { FullPart(xs, a, b); }
    assert Packed(rest, b + q) by { MergedPart(xs, ys, a, b, q); }
    JoinParts(full, rest, a, b, q);
  }

  lemma {:induction false} HeldCarries(xs: seq<Word>, n: nat, a: seq<Byte>, b: seq<Byte>, ys: seq<Word>, q: seq<Byte>)
    requires n < |xs| && |xs| == n + 1 && |a| == LANES * n && 0 < |b| < LANES && Carries(Flat(xs), a + b) && Carries(Flat(ys), q)
    ensures Carries(Held(xs[n].lanes, |b|)[LANES - |b|..] + Flat(ys), b + q)
  {
    FlatSplit(xs, n);
    assert xs[n..] == [xs[n]];
    FlatOne(xs[n]);
    CarriesDrop(Flat(xs), a + b, |a|);
    BytesAssociate(a, b, []);
    var l := xs[n].lanes;
    assert Held(xs[n].lanes, |b|)[LANES - |b|..] == l[..|b|];
    CarriesPrefix(l, b, |b|);
    assert b[..|b|] == b;
    CarriesCat(l[..|b|], b, Flat(ys), q);
  }

  // ----- a whole read -----

  /** The answers of the memory to the commands, one after the other. */
  function Answers(m: Buffer, cmds: seq<Cmd>): seq<Word> {
    if cmds == [] then [] else ReadWords(m, Offset(cmds[0].addr), cmds[0].length) + Answers(m, cmds[1..])
  }

  /** The words the aligner sends for a read of length bytes at addr. */
  function Read(m: Buffer, addr: Seq32, length: Word16, prev: Word): seq<Word> {
    Join(Start(Access(addr, length), prev), Answers(m, Commands(addr, length)))
  }

  /** Without a break the one answer passes through. */
  lemma {:induction false} ReadInside(m: Buffer, addr: Seq32, length: Word16, prev: Word)
    requires !Breaks(addr, length) && 0 < length
    ensures Packed(Read(m, addr, length, prev), Fetch(m, Offset(addr), length))
  {
    ReadWordsPacked(m, Offset(addr), length);
    var ws := ReadWords(m, Offset(addr), length);
    assert Answers(m, [Cmd(addr, length)]) == ws + [] == ws;
    PassThrough(Start(Access(addr, length), prev), ws);
  }

  lemma {:induction false} JoinAnswers(a: DoubleAccess, prev: Word, xs: seq<Word>, ys: seq<Word>, p: seq<Byte>, q: seq<Byte>)
    requires a == DoubleAccess(true, |p| % LANES) && Packed(xs, p) && Packed(ys, q)
    ensures Packed(Join(Start(a, prev), xs + ys), p + q)
  {
    if |p| % LANES == 0 {
      JoinAligned(Start(a, prev), xs, ys, p, q);
    } else {
      var n := |p| - |p| % LANES;
      assert p[..n] + p[n..] == p;
      PartCounts(n, |p| - n);
      JoinMerged(Start(a, prev), xs, ys, p[..n], p[n..], q);
    }
  }

  lemma {:induction false} TwoAnswers(m: Buffer, addr: Seq32, c: Cmd, d: Cmd)
    requires c.addr == addr && d.addr == BufferStart(addr)
    ensures Answers(m, [c, d]) == ReadWords(m, Offset(addr), c.length) + ReadWords(m, 0, d.length)
  {
    assert [c, d][1..] == [d] && [d][1..] == [];
    assert Answers(m, [d]) == ReadWords(m, 0, d.length) + [];
  }

  /** What the second command asks for. */
  function Rest(addr: Seq32, length: Word16): Word16 { (length - BreakLength(addr)) % 0x1_0000 }

  lemma {:induction false} BrokenRead(m: Buffer, addr: Seq32, length: Word16, prev: Word)
    requires Breaks(addr, length)
    ensures Access(addr, length) == DoubleAccess(true, BreakLength(addr) % LANES)
    ensures Read(m, addr, length, prev)
            == Join(Start(Access(addr, length), prev), ReadWords(m, Offset(addr), BreakLength(addr)) + ReadWords(m, 0, Rest(addr, length)))
  {
    TwoAnswers(m, addr, Cmd(addr, BreakLength(addr)), Cmd(BufferStart(addr), Rest(addr, length)));
  }

  /** Two commands that both ask for something: what they fetch comes back as one packet. */
  lemma {:induction false} BothParts(m: Buffer, addr: Seq32, length: Word16, prev: Word, o: Win18, n: nat, q: nat)
    requires Breaks(addr, length) && o == Offset(addr) && n == BreakLength(addr) > 0 && q == Rest(addr, length) > 0
    ensures Packed(Read(m, addr, length, prev), Fetch(m, o, n) + Fetch(m, 0, q))
  {
    BrokenRead(m, addr, length, prev);
    ReadWordsPacked(m, o, n);
    ReadWordsPacked(m, 0, q);
    JoinAnswers(Access(addr, length), prev, ReadWords(m, o, n), ReadWords(m, 0, q), Fetch(m, o, n), Fetch(m, 0, q));
  }

  lemma {:induction false} RestIs(addr: Seq32, length: Word16)
    ensures Rest(addr, length) == if BreakLength(addr) <= length then length - BreakLength(addr) else length - BreakLength(addr) + 0x1_0000
  {}

  /** The answer to a command of length zero: one word without a byte. */
  lemma {:induction false} EmptyAnswer(m: Buffer, addr: Win18)
    ensures |ReadWords(m, addr, 0)| == 1 && LastOnly(ReadWords(m, addr, 0)) && Carries(Flat(ReadWords(m, addr, 0)), [])
  {
    var w := ReadWord(m, addr, 0);
    assert ReadWords(m, addr, 0) == [w];
    FlatOne(w);
    LastOnlyOne(w);
    forall i | 0 <= i < LANES ensures LaneOk(w.lanes, [], i) { assert w.lanes[i] == ReadLane(m, addr, 0, i); }
  }

  /** A packet of another number of words than its bytes need is not well packed. */
  lemma {:induction false} WrongCount(ws: seq<Word>, p: seq<Byte>, n: nat)
    requires |ws| != WordsFor(n) && |p| == n
    ensures !Packed(ws, p)
  {}

  lemma {:induction false} AlignedCount(m: Buffer, addr: Seq32, length: Word16, prev: Word)
    requires Breaks(addr, length) && BreakLength(addr) % LANES == 0
    ensures |Read(m, addr, length, prev)| == |ReadWords(m, Offset(addr), BreakLength(addr))| + |ReadWords(m, 0, Rest(addr, length))|
  {
    var xs, ys := ReadWords(m, Offset(addr), BreakLength(addr)), ReadWords(m, 0, Rest(addr, length));
    var r := Start(Access(addr, length), prev);
    BrokenRead(m, addr, length, prev);
    AnswerLast(m, Offset(addr), BreakLength(addr));
    AnswerLast(m, 0, Rest(addr, length));
    FirstBlockAligned(r, xs, ys);
    PassThrough(r.(prev := xs[|xs| - 1], phase := Aligned), ys);
  }

  lemma {:induction false} AnswerLast(m: Buffer, addr: Win18, left: nat)
    ensures ReadWords(m, addr, left) != [] && LastOnly(ReadWords(m, addr, left))
    ensures left > 0 ==> |ReadWords(m, addr, left)| == WordsFor(left)
    ensures left == 0 ==> |ReadWords(m, addr, left)| == 1
  {
    if left > 0 { ReadWordsPacked(m, addr, left); } else { EmptyAnswer(m, addr); }
  }

  /** A cut exactly at the end of the range: the second command asks for nothing. With full words before it an empty word follows
      the range; else that word is merged away. */
  lemma {:induction false} CutAtEnd(m: Buffer, addr: Seq32, length: Word16, prev: Word)
    requires Breaks(addr, length) && 0 < length && BreakLength(addr) == length
    ensures Packed(Read(m, addr, length, prev), Fetch(m, Offset(addr), length)) <==> length % LANES != 0
  {
    if length % LANES == 0 {
      AnswerLast(m, Offset(addr), length);
      AnswerLast(m, 0, 0);
      AlignedCount(m, addr, length, prev);
      WrongCount(Read(m, addr, length, prev), Fetch(m, Offset(addr), length), length);
    } else {
      MergedAway(m, addr, length, prev);
    }
  }

  lemma {:induction false} MergedAway(m: Buffer, addr: Seq32, length: Word16, prev: Word)
    requires Breaks(addr, length) && 0 < length && BreakLength(addr) == length && length % LANES != 0
    ensures Packed(Read(m, addr, length, prev), Fetch(m, Offset(addr), length))
  {
    BrokenRead(m, addr, length, prev);
    ReadWordsPacked(m, Offset(addr), length);
    EmptyAnswer(m, 0);
    JoinNothing(Access(addr, length), prev, ReadWords(m, Offset(addr), length), ReadWords(m, 0, 0), Fetch(m, Offset(addr), length));
  }

  lemma {:induction false} JoinNothing(a: DoubleAccess, prev: Word, xs: seq<Word>, ys: seq<Word>, p: seq<Byte>)
    requires a == DoubleAccess(true, |p| % LANES) && |p| % LANES != 0 && Packed(xs, p)
    requires |ys| == 1 && LastOnly(ys) && Carries(Flat(ys), [])
    ensures Packed(Join(Start(a, prev), xs + ys), p)
  {
    var n := |p| - |p| % LANES;
    assert p[..n] + p[n..] == p;
    PartCounts(n, |p| - n);
    JoinEmpty(Start(a, prev), xs, ys, p[..n], p[n..]);
  }

  /** The rest b of the first answer joined with a second answer that carries nothing. */
  lemma {:induction false} JoinEmpty(r: Reader, xs: seq<Word>, ys: seq<Word>, a: seq<Byte>, b: seq<Byte>)
    requires r.phase.Block0? && WellFormed(r) && r.offset0 == |b| && 0 < |b| < LANES
    requires xs != [] && LastOnly(xs) && LANES * (|xs| - 1) == |a| && Carries(Flat(xs), a + b)
    requires |ys| == 1 && LastOnly(ys) && Carries(Flat(ys), [])
    ensures Packed(Join(r, xs + ys), a + b)
  {
    var full, rest := Unlast(xs[..|xs| - 1]), Shift(Held(xs[|xs| - 1].lanes, |b|), ys, LANES - |b|);
    assert Join(r, xs + ys) == full + rest by { MergedWords(r, xs, ys); }
    assert Carries(Flat(full), a) by { FullPart(xs, a, b); }
    assert b + [] == b;
    HeldCarries(xs, |xs| - 1, a, b, ys, []);
    ShiftPacked(Held(xs[|xs| - 1].lanes, |b|), ys, LANES - |b|, b);
    PackedBehind(full, rest, a, b);
  }

  /** A cut before the first byte: an empty word comes ahead of everything. */
  lemma {:induction false} CutAtStart(m: Buffer, addr: Seq32, length: Word16, prev: Word)
    requires Breaks(addr, length) && 0 < length && BreakLength(addr) == 0
    ensures !Packed(Read(m, addr, length, prev), Fetch(m, Offset(addr), length))
  {
    StartCount(m, addr, length, prev);
    WrongCount(Read(m, addr, length, prev), Fetch(m, Offset(addr), length), length);
  }

  lemma {:induction false} StartCount(m: Buffer, addr: Seq32, length: Word16, prev: Word)
    requires Breaks(addr, length) && 0 < length && BreakLength(addr) == 0
    ensures |Read(m, addr, length, prev)| == 1 + WordsFor(length)
  {
    AnswerLast(m, Offset(addr), 0);
    AnswerLast(m, 0, length);
    AlignedCount(m, addr, length, prev);
  }

  /** A cut behind the range: more comes back than was asked for. */
  lemma {:induction false} CutBehind(m: Buffer, addr: Seq32, length: Word16, prev: Word)
    requires Breaks(addr, length) && 0 < length < BreakLength(addr)
    ensures !Packed(Read(m, addr, length, prev), Fetch(m, Offset(addr), length))
  {
    RestIs(addr, length);
    BothParts(m, addr, length, prev, Offset(addr), BreakLength(addr), Rest(addr, length));
    WrongCount(Read(m, addr, length, prev), Fetch(m, Offset(addr), length), length);
  }

  lemma {:induction false} CarriedOnce(f: seq<Lane>, p: seq<Byte>, q: seq<Byte>)
    requires Carries(f, p) && Carries(f, q) && |p| == |q|
    ensures p == q
  {
    forall i | 0 <= i < |p| ensures p[i] == q[i] {
      assert LaneOk(f, p, i);
      assert LaneOk(f, q, i);
    }
  }

  /** The n bytes the second command should have fetched, from at on, and those it fetches. */
  predicate Coincide(m: Buffer, at: Win18, n: nat) { Fetch(m, at, n) == Fetch(m, 0, n) }

  lemma {:induction false} SameTail(ws: seq<Word>, a: seq<Byte>, b: seq<Byte>, c: seq<Byte>)
    requires Packed(ws, a + c) && |b| == |c|
    ensures Packed(ws, a + b) <==> b == c
  {
    if Packed(ws, a + b) {
      CarriedOnce(Flat(ws), a + b, a + c);
      BytesAssociate(a, b, []);
      BytesAssociate(a, c, []);
    }
  }

  /** A cut inside the range is right when what follows it lies at the start of the buffer, in place or in value. */
  lemma {:induction false} CutInside(m: Buffer, addr: Seq32, length: Word16, prev: Word, o: Win18, n: nat, at: Win18, q: nat)
    requires Breaks(addr, length) && o == Offset(addr) && n == BreakLength(addr) && 0 < n && 0 < q && n + q == length && at == Mod18(o + n)
    ensures Packed(Read(m, addr, length, prev), Fetch(m, o, n + q)) <==> Coincide(m, at, q)
  {
    assert Packed(Read(m, addr, length, prev), Fetch(m, o, n) + Fetch(m, 0, q)) by {
      RestIs(addr, length);
      BothParts(m, addr, length, prev, o, n, q);
    }
    FetchSplit(m, o, n, q);
    SameTail(Read(m, addr, length, prev), Fetch(m, o, n), Fetch(m, at, q), Fetch(m, 0, q));
  }

  /** Where the cut is. */
  lemma {:induction false} CutAt(addr: Seq32, length: Word16)
    requires Breaks(addr, length)
    ensures BitClear(addr) ==> Offset(addr) + length >= BUFFER_SIZE && BreakLength(addr) == BUFFER_SIZE - Offset(addr)
    ensures !BitClear(addr) ==> Offset(addr) + length < BUFFER_SIZE && BreakLength(addr) == (BUFFER_SIZE - Offset(addr)) % 0x1_0000
    ensures BitClear(addr) || length > 0 ==> (BreakLength(addr) == length <==> (Offset(addr) + length) % 0x1_0000 == 0)
  {
    BreaksExactly(addr, length);
    CutLength(addr);
    CutIsLength(Offset(addr), length, BreakLength(addr));
  }

  lemma {:induction false} CutIsLength(o: Win18, length: Word16, n: Word16)
    requires n == (BUFFER_SIZE - o) % 0x1_0000
    ensures n == length <==> (o + length) % 0x1_0000 == 0
  {
    var k: int := (BUFFER_SIZE - o) / 0x1_0000;
    assert o + n == BUFFER_SIZE - k * 0x1_0000;
  }

  /** The reads that return their range whatever the buffer holds. With the bit clear: all but those of full words only that end
      exactly at the end of the buffer. With the bit set: those that reach the end of the buffer, and those that end at a multiple
      of 2^16 but not with a full word. */
  predicate ReadsRight(addr: Seq32, length: Word16) {
    if BitClear(addr) then !(Offset(addr) + length == BUFFER_SIZE && length % LANES == 0)
    else Offset(addr) + length >= BUFFER_SIZE || ((Offset(addr) + length) % 0x1_0000 == 0 && length % LANES != 0)
  }

  /** The remaining reads with the bit set whose cut lies inside the range. */
  predicate ReadsByChance(m: Buffer, addr: Seq32, length: Word16) {
    !BitClear(addr) && Breaks(addr, length) && 0 < BreakLength(addr) < length
    && Coincide(m, Mod18(Offset(addr) + BreakLength(addr)), length - BreakLength(addr))
  }

  /** When a read returns its range as one well-packed packet: for every address, length and content. */
  lemma {:induction false} ReadExactly(m: Buffer, addr: Seq32, length: Word16, prev: Word)
    requires 0 < length
    ensures Packed(Read(m, addr, length, prev), Fetch(m, Offset(addr), length)) <==> ReadsRight(addr, length) || ReadsByChance(m, addr, length)
  {
    BreaksExactly(addr, length);
    if !Breaks(addr, length) {
      ReadInside(m, addr, length, prev);
    } else {
      CutAt(addr, length);
      BrokenExactly(m, addr, length, prev);
    }
  }

  /** What the condition comes to for each place of the cut. */
  lemma {:induction false} CutCases(m: Buffer, addr: Seq32, length: Word16, n: Word16)
    requires 0 < length && Breaks(addr, length) && n == BreakLength(addr)
    requires BitClear(addr) ==> Offset(addr) + length >= BUFFER_SIZE && n == BUFFER_SIZE - Offset(addr)
    requires !BitClear(addr) ==> Offset(addr) + length < BUFFER_SIZE
    requires n == length <==> (Offset(addr) + length) % 0x1_0000 == 0
    ensures n == 0 || n > length ==> !ReadsRight(addr, length) && !ReadsByChance(m, addr, length)
    ensures n == length ==> !ReadsByChance(m, addr, length) && (ReadsRight(addr, length) <==> length % LANES != 0)
    ensures 0 < n < length ==>
              (ReadsRight(addr, length) || ReadsByChance(m, addr, length) <==> Coincide(m, Mod18(Offset(addr) + n), length - n))
  {}

  lemma {:induction false} BrokenExactly(m: Buffer, addr: Seq32, length: Word16, prev: Word)
    requires 0 < length && Breaks(addr, length)
    requires BitClear(addr) ==> Offset(addr) + length >= BUFFER_SIZE && BreakLength(addr) == BUFFER_SIZE - Offset(addr)
    requires !BitClear(addr) ==> Offset(addr) + length < BUFFER_SIZE
    requires BreakLength(addr) == length <==> (Offset(addr) + length) % 0x1_0000 == 0
    ensures Packed(Read(m, addr, length, prev), Fetch(m, Offset(addr), length)) <==> ReadsRight(addr, length) || ReadsByChance(m, addr, length)
  {
    var n := BreakLength(addr);
    CutCases(m, addr, length, n);
    if n == 0 {
      CutAtStart(m, addr, length, prev);
    } else if n == length {
      CutAtEnd(m, addr, length, prev);
    } else if n > length {
      CutBehind(m, addr, length, prev);
    } else {
      CutInside(m, addr, length, prev, Offset(addr), n, Mod18(Offset(addr) + n), length - n);
    }
  }

  /** A read for which the tests of the code are right returns the range as one well-packed packet. */
  lemma {:induction false} ReadReturns(m: Buffer, addr: Seq32, length: Word16, prev: Word)
    requires 0 < length && ReadsRight(addr, length)
    ensures Packed(Read(m, addr, length, prev), Fetch(m, Offset(addr), length))
  {
    ReadExactly(m, addr, length, prev);
  }

  /** Zero but for its first byte. */
  function Marked(): Buffer { seq(BUFFER_SIZE, i => if i == 0 then 1 else 0) }

  /** No other read is right for every content. */
  lemma {:induction false} ReadsRightExactly(addr: Seq32, length: Word16)
    requires 0 < length
    ensures ReadsRight(addr, length)
            <==> forall m: Buffer, prev: Word {:trigger Read(m, addr, length, prev)} ::
                   Packed(Read(m, addr, length, prev), Fetch(m, Offset(addr), length))
  {
    if ReadsRight(addr, length) {
      forall m: Buffer, prev: Word ensures Packed(Read(m, addr, length, prev), Fetch(m, Offset(addr), length)) {
        ReadReturns(m, addr, length, prev);
      }
    } else {
      ReadExactly(Marked(), addr, length, ZERO);
      if ReadsByChance(Marked(), addr, length) { MarkedDiffers(addr, length); }
    }
  }

  /** The byte behind the cut is not the first byte of the buffer. */
  lemma {:induction false} MarkedDiffers(addr: Seq32, length: Word16)
    requires !BitClear(addr) && Breaks(addr, length) && 0 < BreakLength(addr) < length
    ensures !Coincide(Marked(), Mod18(Offset(addr) + BreakLength(addr)), length - BreakLength(addr))
  {
    CutAt(addr, length);
    var at := Mod18(Offset(addr) + BreakLength(addr));
    assert 0 < Offset(addr) + BreakLength(addr) < BUFFER_SIZE;
    assert at != 0;
    assert Fetch(Marked(), at, length - BreakLength(addr))[0] == 0;
    assert Mod18(0) == 0;
    assert Fetch(Marked(), 0, length - BreakLength(addr))[0] == Marked()[Mod18(0)];
  }

  /** What is written to a range is what a later read of it returns; with the bit clear exactly unless the range ends at the very end
      of the buffer and is made of full words. */
  lemma {:induction false} RoundTrip(m: Buffer, c: Cmd, w: W.Writer, xs: seq<Word>, p: seq<Byte>, prev: Word)
    requires W.WellFormed(w) && Packed(xs, p) && c.length == |p| < 0x1_0000
    ensures ReadsRight(c.addr, |p|) ==> Packed(Read(W.Execute(m, W.Bursts(c, w, xs)), c.addr, |p|, prev), p)
    ensures BitClear(c.addr) ==>
              (Packed(Read(W.Execute(m, W.Bursts(c, w, xs)), c.addr, |p|, prev), p)
               <==> !(Offset(c.addr) + |p| == BUFFER_SIZE && |p| % LANES == 0))
  {
    W.WriteStores(m, c, w, xs, p);
    FetchAfterStore(m, Offset(c.addr), p);
    ReadExactly(Store(m, Offset(c.addr), p), c.addr, |p|, prev);
  }

  /** The buffer of an odd session has the bit set. Its first 64 bytes: the read is cut although it does not reach the end, and an
      empty word comes ahead of them, whatever they are. Sixteen bytes in the middle: another place of the buffer comes back. */
  lemma {:induction false} OddSessionBreaks(m: Buffer, prev: Word)
    ensures Commands(BUFFER_SIZE, 64) == [Cmd(BUFFER_SIZE, 0), Cmd(BUFFER_SIZE, 64)]
    ensures !Packed(Read(m, BUFFER_SIZE, 64, prev), Fetch(m, 0, 64))
    ensures Packed(Read(m, BUFFER_SIZE + 0xFFF8, 16, prev), Fetch(m, 0xFFF8, 8) + Fetch(m, 0, 8))
  {
    ReadExactly(m, BUFFER_SIZE, 64, prev);
    BothParts(m, BUFFER_SIZE + 0xFFF8, 16, prev, 0xFFF8, 8, 8);
  }

  // ----- the processes -----

  class TxReadMemAccessBreakdown {
    var breakdown: bool
    var tempAddr: Seq32
    var tempLength: Word16
    var breakTemp: Word16
    var cmdIn: seq<(Seq32, Word16)>
    var cmdOut: seq<Cmd>
    var accessOut: seq<DoubleAccess>

    ghost predicate Valid() reads this {
      breakdown ==> Breaks(tempAddr, tempLength) && breakTemp == BreakLength(tempAddr)
    }

    /** The first command, and what the aligner needs to know. */
    method FirstCommand()
      requires Valid() && !breakdown && cmdIn != []
      modifies this
      ensures var (addr, length) := old(cmdIn[0]);
              && Valid() && (breakdown <==> Breaks(addr, length)) && tempAddr == addr && tempLength == length
              && cmdIn == old(cmdIn)[1..] && cmdOut == old(cmdOut) + [Commands(addr, length)[0]]
              && accessOut == old(accessOut) + [Access(addr, length)]
    {
      tempAddr, tempLength := cmdIn[0].0, cmdIn[0].1;
      cmdIn := cmdIn[1..];
      if (tempAddr + tempLength) % (2 * BUFFER_SIZE) >= BUFFER_SIZE {
        breakTemp := (BUFFER_SIZE - tempAddr) % 0x1_0000;
        cmdOut := cmdOut + [Cmd(tempAddr, breakTemp)];
        accessOut := accessOut + [DoubleAccess(true, breakTemp % LANES)];
        breakdown := true;
      } else {
        cmdOut := cmdOut + [Cmd(tempAddr, tempLength)];
        accessOut := accessOut + [DoubleAccess(false, 0)];
      }
    }

    method SecondCommand()
      requires Valid() && breakdown
      modifies `breakdown, `cmdOut
      ensures !breakdown && cmdOut == old(cmdOut) + [Commands(tempAddr, tempLength)[1]]
    {
      cmdOut := cmdOut + [Cmd(BufferStart(tempAddr), (tempLength - breakTemp) % 0x1_0000)];
      breakdown := false;
    }
  }

  class TxMemDataReadAligner {
    var phase: Phase
    var offset0: nat
    var offset1: nat
    var prevWord: Word
    var dataIn: seq<Word>
    var dataOut: seq<Word>

    ghost function View(): Reader reads this { Reader(phase, offset0, offset1, prevWord) }

    method ReadAccess(a: DoubleAccess)
      requires a.offset < LANES
      modifies `phase, `offset0, `offset1
      ensures View() == Start(a, prevWord) && WellFormed(View())
    {
      offset0 := a.offset;
      offset1 := (LANES - a.offset) % LANES;
      phase := if a.double then Block0 else Single;
    }

    method Merge(currWord: Word, lanes: Lanes)
      requires WellFormed(View())
      modifies `phase, `prevWord, `dataOut
      ensures View() == AfterMerge(old(View()), currWord, lanes).0
      ensures dataOut == old(dataOut) + AfterMerge(old(View()), currWord, lanes).1
    {
      var last := false;
      if currWord.last {
        if currWord.lanes[offset1].keep {
          phase := ExtraData;
        } else {
          last := true;
          phase := Done;
        }
      } else {
        phase := Block1;
      }
      prevWord := currWord;
      dataOut := dataOut + [Word(lanes, last)];
    }

    method FirstBlockWord(currWord: Word)
      requires WellFormed(View()) && phase.Block0?
      modifies `phase, `prevWord, `dataOut
      ensures View() == TakeWord(old(View()), currWord).0 && dataOut == old(dataOut) + TakeWord(old(View()), currWord).1
    {
      var writeWord := true;
      if currWord.last {
        if offset0 == 0 {
          phase := Aligned;
        } else {
          writeWord := false;
          phase := FirstMerge;
        }
      }
      if writeWord {
        dataOut := dataOut + [Word(currWord.lanes, false)];
      }
      prevWord := currWord;
    }

    method Step()
      requires WellFormed(View()) && dataIn != [] && !phase.ExtraData? && !phase.Done?
      modifies this
      ensures WellFormed(View()) && dataIn == old(dataIn)[1..]
      ensures View() == TakeWord(old(View()), old(dataIn[0])).0
      ensures dataOut == old(dataOut) + TakeWord(old(View()), old(dataIn[0])).1
    {
      var currWord := dataIn[0];
      dataIn := dataIn[1..];
      if phase.Block0? {
        FirstBlockWord(currWord);
      } else if phase.FirstMerge? {
        Merge(currWord, AlignFrom(currWord, prevWord, offset0));
      } else if phase.Block1? {
        Merge(currWord, AlignTo(currWord, prevWord, offset1));
      } else {
        dataOut := dataOut + [currWord];
        if currWord.last {
          phase := Done;
        }
      }
    }

    method ExtraStep()
      requires WellFormed(View()) && phase.ExtraData?
      modifies `phase, `dataOut
      ensures phase.Done? && dataOut == old(dataOut) + Join(old(View()), [])
    {
      dataOut := dataOut + [Word(AlignTo(ZERO, prevWord, offset1), true)];
      phase := Done;
    }
  }
}
