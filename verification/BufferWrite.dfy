/** tx_Data_to_Memory: a write that passes the end of the circular buffer becomes two memory commands, and the words of the
    second one are realigned. */
module BufferWrite {
  import opened ToeTypes
  import opened Words
  import opened CircularBuffer

  datatype Phase = WaitCmd | Forward | First | Second | Extra

  /** Static state: input_command, bytes_first_command, byte_offset, number_of_words_to_send, count_word_sent, prevWord. */
  datatype Writer = Writer(phase: Phase, cmd: Cmd, firstBytes: nat, offset: nat, words: nat, count: nat, prev: Word)

  predicate WellFormed(w: Writer) { w.offset < LANES }

  /** len2Keep: no length stands for all 64 lanes. */
  function KeepLanes(l: Lanes, n: nat): Lanes
    requires n < LANES
  {
    seq(LANES, i requires 0 <= i < LANES => Lane(l[i].data, n == 0 || i < n))
  }

  /** buffer_overflow has WINDOW_BITS + 1 bits. */
  predicate Overflows(c: Cmd) { (Offset(c.addr) + c.length) % (2 * BUFFER_SIZE) >= BUFFER_SIZE }

  function TakeCmd(c: Cmd, w: Writer): (r: (Writer, Cmd))
    ensures WellFormed(w) ==> WellFormed(r.0)
  {
    if Overflows(c) then
      var n := BUFFER_SIZE - Offset(c.addr);
      (Writer(First, c, n, n % LANES, (n / LANES + if n % LANES != 0 then 1 else 0) % 1024, 1, w.prev), Cmd(c.addr, n))
    else (w.(phase := Forward, cmd := c), c)
  }

  function SecondCmd(w: Writer): Cmd
    requires w.firstBytes <= w.cmd.length
  {
    Cmd(BufferStart(w.cmd.addr), w.cmd.length - w.firstBytes)
  }

  predicate Finishes(w: Writer, x: Word)
    requires WellFormed(w)
  {
    x.last && !(x.lanes[w.offset].keep && w.offset != 0)
  }

  /** One input word in one of the forwarding phases: the new state and the word sent. */
  function TakeWord(w: Writer, x: Word): (r: (Writer, Word))
    requires WellFormed(w)
    ensures WellFormed(r.0)
  {
    match w.phase
    case First =>
      var v := w.(count := (w.count + 1) % 1024, prev := x);
      if w.count == w.words then (v.(phase := if x.last then Extra else Second), Word(KeepLanes(x.lanes, w.offset), true))
      else (v, x)
    case Second =>
      (w.(prev := x, phase := if !x.last then Second else if Finishes(w, x) then WaitCmd else Extra),
       Word(AlignTo(x, w.prev, w.offset), Finishes(w, x)))
    case _ => (w.(phase := if x.last then WaitCmd else w.phase), x)
  }

  function ExtraWord(w: Writer): Word
    requires WellFormed(w)
  {
    Word(AlignTo(ZERO, w.prev, w.offset), true)
  }

  /** All words of a packet, and the extra word if the last one leaves lanes over. */
  function Send(w: Writer, xs: seq<Word>): seq<Word>
    requires WellFormed(w)
    decreases |xs|
  {
    if xs == [] then (if w.phase.Extra? then [ExtraWord(w)] else [])
    else var (v, y) := TakeWord(w, xs[0]); [y] + Send(v, xs[1..])
  }

  // ----- no break -----

  lemma {:induction false} ForwardSends(w: Writer, xs: seq<Word>)
    requires WellFormed(w) && w.phase.Forward? && LastOnly(xs) && xs != []
    ensures Send(w, xs) == xs
    decreases |xs|
  {
    var (v, y) := TakeWord(w, xs[0]);
    if |xs| == 1 { OnlyWord(xs); }
    if |xs| > 1 {
      LastOnlyTail(xs);
      ForwardSends(v, xs[1..]);
    } else {
      assert Send(v, xs[1..]) == [];
    }
  }

  // ----- the first command -----

  /** The last word of the first command, with the keep bits of the bytes before the buffer's end. */
  function Cut(x: Word, offset: nat): Word
    requires offset < LANES
  {
    Word(KeepLanes(x.lanes, offset), true)
  }

  lemma {:induction false} PrefixCons(xs: seq<Word>, n: nat, c: Word, t: seq<Word>)
    requires 1 < n <= |xs|
    ensures [xs[0]] + (xs[1..][..n - 2] + [c] + t) == xs[..n - 1] + [c] + t
  {}

  /** The 10-bit counters still tell when the n-th word comes. */
  lemma {:induction false} CountStep(words: nat, count: nat, n: nat)
    requires words < 1024 && count < 1024 && 0 < n <= 1024 && (words - count) % 1024 == n - 1
    ensures words == count <==> n == 1
    ensures n > 1 ==> (words - (count + 1) % 1024) % 1024 == n - 2
  {}

  lemma {:induction false} FirstSends(w: Writer, xs: seq<Word>, n: nat)
    requires WellFormed(w) && w.phase.First? && LastOnly(xs) && 0 < n <= |xs| && n <= 1024
    requires (w.words - w.count) % 1024 == n - 1 && w.count < 1024 && w.words < 1024
    ensures var v := w.(phase := if n == |xs| then Extra else Second, count := (w.words + 1) % 1024, prev := xs[n - 1]);
            Send(w, xs) == xs[..n - 1] + [Cut(xs[n - 1], w.offset)] + Send(v, xs[n..])
    decreases n
  {
    var (v, y) := TakeWord(w, xs[0]);
    var u := w.(phase := if n == |xs| then Extra else Second, count := (w.words + 1) % 1024, prev := xs[n - 1]);
    assert Send(w, xs) == [y] + Send(v, xs[1..]);
    CountStep(w.words, w.count, n);
    assert LastAt(xs, 0);
    if n == 1 {
      assert xs[..0] + [Cut(xs[0], w.offset)] == [y];
    } else {
      LastOnlyTail(xs);
      FirstSends(v, xs[1..], n - 1);
      assert xs[1..][n - 1..] == xs[n..];
      PrefixCons(xs, n, Cut(xs[n - 1], w.offset), Send(u, xs[n..]));
    }
  }

  // ----- the second command -----

  /** The second phase realigns by the offset. */
  lemma {:induction false} SecondShifts(w: Writer, xs: seq<Word>)
    requires WellFormed(w) && w.phase.Second? && LastOnly(xs) && xs != [] && w.offset != 0
    ensures Send(w, xs) == Shift(w.prev.lanes, xs, w.offset)
    decreases |xs|
  {
    var (v, y) := TakeWord(w, xs[0]);
    if |xs| == 1 { OnlyWord(xs); }
    if |xs| > 1 {
      LastOnlyTail(xs);
      SecondShifts(v, xs[1..]);
    } else if v.phase.Extra? {
      ExtraShifts(v);
    }
  }

  lemma {:induction false} ExtraShifts(w: Writer)
    requires WellFormed(w) && w.phase.Extra? && w.offset != 0
    ensures Send(w, []) == Shift(w.prev.lanes, [], w.offset)
  {
    assert Blank(LANES)[..w.offset] == Blank(w.offset);
  }

  /** Without an offset the words of the second command pass through. */
  lemma {:induction false} AlignedSends(w: Writer, xs: seq<Word>)
    requires WellFormed(w) && w.phase.Second? && LastOnly(xs) && xs != [] && w.offset == 0
    ensures Send(w, xs) == xs
    decreases |xs|
  {
    var (v, y) := TakeWord(w, xs[0]);
    if |xs| == 1 { OnlyWord(xs); }
    if |xs| > 1 {
      LastOnlyTail(xs);
      AlignedSends(v, xs[1..]);
    } else {
      assert Send(v, xs[1..]) == [];
    }
  }

  // ----- a whole packet -----

  lemma {:induction false} CutCarries(f: seq<Lane>, l: Lanes, p: seq<Byte>, k: nat, b: nat)
    requires Carries(f + l, p) && k < LANES && b <= |p| && b == |f| + (if k == 0 then LANES else k)
    ensures Carries(f + KeepLanes(l, k), p[..b])
  {
    var g := f + KeepLanes(l, k);
    forall i | 0 <= i < |g| ensures LaneOk(g, p[..b], i) { assert LaneOk(f + l, p, i); }
  }

  /** The lanes around the n-th word, and the lanes of the first n words with that one cut. */
  lemma {:induction false} FirstLanes(xs: seq<Word>, n: nat, c: Word)
    requires 0 < n <= |xs|
    ensures Flat(xs) == (Flat(xs[..n - 1]) + xs[n - 1].lanes) + Flat(xs[n..])
    ensures Flat(xs[..n - 1] + [c]) == Flat(xs[..n - 1]) + c.lanes
  {
    var rest := xs[n - 1..];
    FlatSplit(xs, n - 1);
    assert rest[0] == xs[n - 1] && rest[1..] == xs[n..];
    LanesAssociate(Flat(xs[..n - 1]), xs[n - 1].lanes, Flat(xs[n..]));
    FlatCat(xs[..n - 1], [c]);
    FlatOne(c);
  }

  /** The words of the first command carry the bytes up to the end of the buffer. */
  lemma {:induction false} FirstPacked(xs: seq<Word>, p: seq<Byte>, b: nat, n: nat)
    requires Packed(xs, p) && 0 < b <= |p| && n == WordsFor(b)
    ensures n <= |xs| && Packed(xs[..n - 1] + [Cut(xs[n - 1], b % LANES)], p[..b])
  {
    var k, c := b % LANES, Cut(xs[n - 1], b % LANES);
    assert b == LANES * (n - 1) + if k == 0 then LANES else k;
    FirstLanes(xs, n, c);
    CutWhole(Flat(xs), Flat(xs[..n - 1]), xs[n - 1].lanes, Flat(xs[n..]), p, k, b);
    CutLast(xs, n, c);
  }

  lemma {:induction false} CutLast(xs: seq<Word>, n: nat, c: Word)
    requires LastOnly(xs) && 0 < n <= |xs| && c.last
    ensures LastOnly(xs[..n - 1] + [c])
  {
    var ys := xs[..n - 1] + [c];
    forall i | 0 <= i < n ensures LastAt(ys, i) { assert LastAt(xs, i); }
  }

  lemma {:induction false} CutWhole(whole: seq<Lane>, f: seq<Lane>, l: Lanes, g: seq<Lane>, p: seq<Byte>, k: nat, b: nat)
    requires whole == (f + l) + g && Carries(whole, p) && k < LANES && b <= |p| && b == |f| + (if k == 0 then LANES else k)
    ensures Carries(f + KeepLanes(l, k), p[..b])
  {
    if |p| <= |f + l| {
      CarriesTake(whole, p, |f + l|);
      assert whole[..|f + l|] == f + l;
      CutCarries(f, l, p, k, b);
    } else {
      CarriesPrefix(whole, p, |f + l|);
      assert whole[..|f + l|] == f + l;
      CutCarries(f, l, p[..|f + l|], k, b);
      assert p[..|f + l|][..b] == p[..b];
    }
  }

  lemma {:induction false} WordsForDrop(l: nat, n: nat)
    requires LANES * n < l
    ensures WordsFor(l - LANES * n) == WordsFor(l) - n && n < WordsFor(l)
  {}

  lemma {:induction false} AlignedPacked(w: Writer, xs: seq<Word>, p: seq<Byte>, n: nat)
    requires Packed(xs, p) && LANES * n < |p| && n < |xs| && w.offset == 0 && w.phase.Second?
    ensures Packed(Send(w, xs[n..]), p[LANES * n..])
  {
    LastOnlyDrop(xs, n);
    AlignedSends(w, xs[n..]);
    FlatSplit(xs, n);
    WordsForDrop(|p|, n);
    CarriesDrop(Flat(xs), p, LANES * n);
  }

  /** What is sent behind the first command carries the bytes past the end of the buffer. */
  lemma {:induction false} SecondPacked(w: Writer, xs: seq<Word>, p: seq<Byte>, b: nat, n: nat)
    requires Packed(xs, p) && 0 < b < |p| && n == WordsFor(b) && n <= |xs|
    requires w.offset == b % LANES && w.prev == xs[n - 1] && w.phase == if n == |xs| then Extra else Second
    ensures Packed(Send(w, xs[n..]), p[b..])
  {
    if w.offset == 0 {
      assert b == LANES * n;
      AlignedPacked(w, xs, p, n);
    } else {
      ShiftDrops(xs, p, b, n);
      if n == |xs| {
        assert xs[n..] == [];
        ExtraShifts(w);
      } else {
        LastOnlyDrop(xs, n);
        SecondShifts(w, xs[n..]);
      }
    }
  }

  // ----- the memory -----

  /** Both commands and both bursts of a write; a write that stays inside the buffer has one. */
  datatype Burst = Burst(cmd: Cmd, words: seq<Word>)

  function Bursts(c: Cmd, w: Writer, xs: seq<Word>): seq<Burst>
    requires WellFormed(w) && c.length < 0x1_0000
  {
    var (v, c1) := TakeCmd(c, w);
    var ys := Send(v, xs);
    if !Overflows(c) then [Burst(c1, ys)]
    else
      var n := WordsFor(c1.length);
      if n <= |ys| then [Burst(c1, ys[..n]), Burst(SecondCmd(v), ys[n..])] else [Burst(c1, ys)]
  }

  function Execute(m: Buffer, bs: seq<Burst>): Buffer
    decreases |bs|
  {
    if bs == [] then m else Execute(WriteWords(m, Offset(bs[0].cmd.addr), bs[0].words), bs[1..])
  }

  /** The data a command asks for is what its words carry. */
  predicate Matches(b: Burst, p: seq<Byte>) { Packed(b.words, p) && b.cmd.length == |p| }

  /** The lane behind the last byte is not kept. */
  lemma {:induction false} LaneBehind(xs: seq<Word>, p: seq<Byte>, k: nat)
    requires Packed(xs, p) && k == |p| % LANES != 0
    ensures !xs[|xs| - 1].lanes[k].keep
  {
    var n := |xs| - 1;
    FlatSplit(xs, n);
    assert xs[n..] == [xs[n]];
    FlatOne(xs[n]);
    assert LANES * n + k == |p|;
    assert Flat(xs)[LANES * n..][k] == Flat(xs)[|p|];
    assert LaneOk(Flat(xs), p, |p|);
  }

  /** A write that ends exactly at the end of the buffer leaves a word without any byte. */
  lemma {:induction false} NothingLeft(w: Writer, xs: seq<Word>, p: seq<Byte>)
    requires Packed(xs, p) && w.phase.Extra? && w.offset == |p| % LANES && w.prev == xs[|xs| - 1]
    ensures |Send(w, [])| == 1 && !Send(w, [])[0].lanes[0].keep
  {
    if w.offset != 0 {
      LaneBehind(xs, p, w.offset);
      assert ExtraWord(w).lanes[0] == w.prev.lanes[w.offset];
    }
  }

  lemma {:induction false} NumberOfWords(b: nat)
    requires 0 < b < 0x1_0000
    ensures var words := (b / LANES + if b % LANES != 0 then 1 else 0) % 1024;
            0 < WordsFor(b) <= 1024 && (words - 1) % 1024 == WordsFor(b) - 1
  {
    assert b / LANES + (if b % LANES != 0 then 1 else 0) == WordsFor(b);
  }

  lemma {:induction false} FirstState(c: Cmd, w: Writer, b: nat)
    requires Overflows(c) && c.length < 0x1_0000 && b == BUFFER_SIZE - Offset(c.addr)
    ensures var (v, c1) := TakeCmd(c, w);
            && c1 == Cmd(c.addr, b) && 0 < b <= c.length && SecondCmd(v) == Cmd(BufferStart(c.addr), c.length - b)
            && v.phase.First? && v.offset == b % LANES && v.count == 1 && v.words < 1024 && (v.words - 1) % 1024 == WordsFor(b) - 1
  {
    NumberOfWords(b);
  }

  /** The two bursts of a write that passes the end. */
  lemma {:induction false} BurstsAre(c: Cmd, w: Writer, xs: seq<Word>, b: nat, n: nat, v: Writer, u: Writer)
    requires WellFormed(w) && LastOnly(xs) && c.length < 0x1_0000 && Overflows(c) && v == TakeCmd(c, w).0
    requires b == BUFFER_SIZE - Offset(c.addr) && n == WordsFor(b) && 0 < n <= |xs| && n <= 1024
    requires u == v.(phase := if n == |xs| then Extra else Second, count := (v.words + 1) % 1024, prev := xs[n - 1])
    ensures WellFormed(u) && v.offset == b % LANES
    ensures Bursts(c, w, xs) == [Burst(Cmd(c.addr, b), xs[..n - 1] + [Cut(xs[n - 1], v.offset)]),
                                 Burst(Cmd(BufferStart(c.addr), c.length - b), Send(u, xs[n..]))]
  {
    FirstState(c, w, b);
    FirstSends(v, xs, n);
    var first := xs[..n - 1] + [Cut(xs[n - 1], v.offset)];
    assert |first| == n;
    assert (first + Send(u, xs[n..]))[..n] == first;
    assert (first + Send(u, xs[n..]))[n..] == Send(u, xs[n..]);
  }

  /** The two bursts of a write past the end: the second carries the rest, or nothing when there is none. */
  predicate SplitAt(bs: seq<Burst>, c: Cmd, p: seq<Byte>, b: nat) {
    && 0 < b <= |p| && |bs| == 2 && Matches(bs[0], p[..b]) && bs[0].cmd.addr == c.addr
    && bs[1].cmd == Cmd(BufferStart(c.addr), |p| - b)
    && (if b < |p| then Matches(bs[1], p[b..]) else |bs[1].words| == 1 && !bs[1].words[0].lanes[0].keep)
  }

  lemma {:induction false} SecondBurst(u: Writer, xs: seq<Word>, p: seq<Byte>, b: nat, n: nat, second: Burst)
    requires Packed(xs, p) && 0 < b <= |p| && n == WordsFor(b) && n <= |xs| && WellFormed(u)
    requires u.offset == b % LANES && u.prev == xs[n - 1] && u.phase == if n == |xs| then Extra else Second
    requires second.words == Send(u, xs[n..]) && second.cmd.length == |p| - b
    ensures if b < |p| then Matches(second, p[b..]) else |second.words| == 1 && !second.words[0].lanes[0].keep
  {
    if b < |p| {
      SecondPacked(u, xs, p, b, n);
    } else {
      assert xs[n..] == [];
      NothingLeft(u, xs, p);
    }
  }

  lemma {:induction false} SplitBursts(c: Cmd, w: Writer, xs: seq<Word>, p: seq<Byte>)
    requires WellFormed(w) && Packed(xs, p) && c.length == |p| < 0x1_0000 && Overflows(c)
    ensures SplitAt(Bursts(c, w, xs), c, p, BUFFER_SIZE - Offset(c.addr))
  {
    var b := BUFFER_SIZE - Offset(c.addr);
    var n, v := WordsFor(b), TakeCmd(c, w).0;
    FirstState(c, w, b);
    NumberOfWords(b);
    FirstPacked(xs, p, b, n);
    var u := v.(phase := if n == |xs| then Extra else Second, count := (v.words + 1) % 1024, prev := xs[n - 1]);
    BurstsAre(c, w, xs, b, n, v, u);
    SecondBurst(u, xs, p, b, n, Burst(Cmd(BufferStart(c.addr), c.length - b), Send(u, xs[n..])));
  }

  /** No payload is carried by a word whose first lane is not kept. */
  lemma {:induction false} EmptyBurst(b: Burst, q: seq<Byte>)
    requires |b.words| == 1 && !b.words[0].lanes[0].keep
    ensures !Matches(b, q)
  {
    FlatOne(b.words[0]);
    assert b.words == [b.words[0]];
    assert Carries(Flat(b.words), q) ==> LaneOk(Flat(b.words), q, 0);
  }

  lemma {:induction false} ExecuteOne(m: Buffer, b: Burst, p: seq<Byte>)
    requires Matches(b, p) && |p| < 0x1_0000
    ensures Execute(m, [b]) == Store(m, Offset(b.cmd.addr), p)
  {
    WriteWordsStores(m, Offset(b.cmd.addr), b.words, p);
    assert [b][1..] == [];
  }

  lemma {:induction false} InsideBurst(c: Cmd, w: Writer, xs: seq<Word>)
    requires WellFormed(w) && LastOnly(xs) && xs != [] && c.length < 0x1_0000 && !Overflows(c)
    ensures Bursts(c, w, xs) == [Burst(c, xs)]
  {
    ForwardSends(TakeCmd(c, w).0, xs);
  }

  lemma {:induction false} WriteInside(m: Buffer, c: Cmd, w: Writer, xs: seq<Word>, p: seq<Byte>)
    requires WellFormed(w) && Packed(xs, p) && c.length == |p| < 0x1_0000 && !Overflows(c)
    ensures Execute(m, Bursts(c, w, xs)) == Store(m, Offset(c.addr), p)
  {
    InsideBurst(c, w, xs);
    var b := Burst(c, xs);
    assert Bursts(c, w, xs) == [b] && Matches(b, p);
    ExecuteOne(m, b, p);
  }

  lemma {:induction false} ExecuteTwo(m: Buffer, x: Burst, y: Burst, p: seq<Byte>)
    requires Matches(x, p) && |p| < 0x1_0000
    ensures Execute(m, [x, y]) == WriteWords(Store(m, Offset(x.cmd.addr), p), Offset(y.cmd.addr), y.words)
  {
    WriteWordsStores(m, Offset(x.cmd.addr), x.words, p);
    assert [x, y][1..] == [y] && [y][1..] == [];
    var m1 := WriteWords(m, Offset(x.cmd.addr), x.words);
    assert Execute(m, [x, y]) == Execute(m1, [y]);
    assert Execute(m1, [y]) == WriteWords(m1, Offset(y.cmd.addr), y.words);
  }

  lemma {:induction false} WriteAcross(m: Buffer, a: Win18, x: Burst, y: Burst, p: seq<Byte>, n: nat)
    requires 0 < n <= |p| < 0x1_0000 && a + n == BUFFER_SIZE && Matches(x, p[..n])
    requires Offset(x.cmd.addr) == a && Offset(y.cmd.addr) == 0
    requires n < |p| ==> Matches(y, p[n..])
    requires n == |p| ==> |y.words| == 1 && !y.words[0].lanes[0].keep
    ensures Execute(m, [x, y]) == Store(m, a, p)
  {
    ExecuteTwo(m, x, y, p[..n]);
    assert p[..n] + p[n..] == p;
    if n < |p| {
      WriteWordsStores(Store(m, a, p[..n]), 0, y.words, p[n..]);
      StoreSplit(m, a, p[..n], p[n..]);
    } else {
      assert p[..n] == p;
      assert y.words[1..] == [];
    }
  }

  lemma {:induction false} WriteSplit(m: Buffer, bs: seq<Burst>, c: Cmd, p: seq<Byte>, n: nat)
    requires SplitAt(bs, c, p, n) && n + Offset(c.addr) == BUFFER_SIZE && n <= |p| < 0x1_0000
    ensures Execute(m, bs) == Store(m, Offset(c.addr), p)
  {
    assert bs == [bs[0], bs[1]];
    WriteAcross(m, Offset(c.addr), bs[0], bs[1], p, n);
  }

  /** Whatever its length and place, the write stores byte i at (addr + i) modulo the buffer size and nothing elsewhere. */
  lemma {:induction false} WriteStores(m: Buffer, c: Cmd, w: Writer, xs: seq<Word>, p: seq<Byte>)
    requires WellFormed(w) && Packed(xs, p) && c.length == |p| < 0x1_0000
    ensures Execute(m, Bursts(c, w, xs)) == Store(m, Offset(c.addr), p)
  {
    if Overflows(c) {
      SplitBursts(c, w, xs, p);
      OverflowIs(c);
      WriteSplit(m, Bursts(c, w, xs), c, p, BUFFER_SIZE - Offset(c.addr));
    } else {
      WriteInside(m, c, w, xs, p);
    }
  }

  /** Every command the data mover gets has a burst of its own length, exactly when the write does not end at the very end of
      the buffer; there a command of length 0 goes out with a word that carries nothing. */
  lemma {:induction false} CommandsMatchExactly(c: Cmd, w: Writer, xs: seq<Word>, p: seq<Byte>)
    requires WellFormed(w) && Packed(xs, p) && c.length == |p| < 0x1_0000
    ensures AllMatched(Bursts(c, w, xs)) <==> Offset(c.addr) + |p| != BUFFER_SIZE
    ensures Offset(c.addr) + |p| == BUFFER_SIZE ==> |Bursts(c, w, xs)| == 2 && Bursts(c, w, xs)[1].cmd.length == 0
  {
    OverflowIs(c);
    var bs, b := Bursts(c, w, xs), BUFFER_SIZE - Offset(c.addr);
    if Overflows(c) {
      SplitBursts(c, w, xs, p);
      SplitMatched(bs, c, p, b);
    } else {
      InsideBurst(c, w, xs);
      OneMatched(bs, p);
    }
  }

  lemma {:induction false} OverflowIs(c: Cmd)
    requires c.length < 0x1_0000
    ensures Overflows(c) <==> Offset(c.addr) + c.length >= BUFFER_SIZE
  {}

  lemma {:induction false} SplitMatched(bs: seq<Burst>, c: Cmd, p: seq<Byte>, b: nat)
    requires SplitAt(bs, c, p, b)
    ensures AllMatched(bs) <==> b < |p|
  {
    if b < |p| { BothMatched(bs, p[..b], p[b..]); } else { NotMatched(bs); }
  }

  lemma {:induction false} OneMatched(bs: seq<Burst>, p: seq<Byte>)
    requires |bs| == 1 && Matches(bs[0], p)
    ensures AllMatched(bs)
  {}

  /** Every command is met by a burst that carries as many bytes as it asks for. */
  ghost predicate AllMatched(bs: seq<Burst>) { forall i :: 0 <= i < |bs| ==> exists q :: Matches(bs[i], q) }

  lemma {:induction false} BothMatched(bs: seq<Burst>, p: seq<Byte>, q: seq<Byte>)
    requires |bs| == 2 && Matches(bs[0], p) && Matches(bs[1], q)
    ensures AllMatched(bs)
  {}

  lemma {:induction false} NotMatched(bs: seq<Burst>)
    requires |bs| == 2 && |bs[1].words| == 1 && !bs[1].words[0].lanes[0].keep
    ensures !AllMatched(bs)
  {
    forall q ensures !Matches(bs[1], q) { EmptyBurst(bs[1], q); }
  }

  // ----- the process -----

  class TxDataToMemory {
    var phase: Phase
    var inputCommand: Cmd
    var bytesFirstCommand: nat
    var byteOffset: nat
    var numberOfWords: nat
    var countWordSent: nat
    var prevWord: Word
    var cmdIn: seq<Cmd>
    var dataIn: seq<Word>
    var cmdOut: seq<Cmd>
    var dataOut: seq<Word>

    ghost function View(): Writer reads this {
      Writer(phase, inputCommand, bytesFirstCommand, byteOffset, numberOfWords, countWordSent, prevWord)
    }

    ghost predicate Valid() reads this {
      WellFormed(View()) && (phase.First? ==> bytesFirstCommand <= inputCommand.length)
    }

    method WaitForCommand()
      requires Valid() && phase.WaitCmd? && cmdIn != [] && cmdIn[0].length < 0x1_0000
      modifies this
      ensures Valid() && View() == TakeCmd(old(cmdIn[0]), old(View())).0
      ensures cmdIn == old(cmdIn)[1..] && cmdOut == old(cmdOut) + [TakeCmd(old(cmdIn[0]), old(View())).1]
      ensures dataIn == old(dataIn) && dataOut == old(dataOut)
    {
      inputCommand, cmdIn := cmdIn[0], cmdIn[1..];
      var bufferOverflow := (inputCommand.addr % BUFFER_SIZE + inputCommand.length) % (2 * BUFFER_SIZE);
      if bufferOverflow >= BUFFER_SIZE {
        var bytes := BUFFER_SIZE - inputCommand.addr % BUFFER_SIZE;
        byteOffset := bytes % LANES;
        bytesFirstCommand := bytes;
        if byteOffset != 0 {
          numberOfWords := (bytes / LANES + 1) % 1024;
        } else {
          numberOfWords := bytes / LANES % 1024;
        }
        countWordSent := 1;
        phase := First;
        cmdOut := cmdOut + [Cmd(inputCommand.addr, bytes)];
      } else {
        phase := Forward;
        cmdOut := cmdOut + [inputCommand];
      }
    }

    method ForwardFirst(currWord: Word)
      requires Valid() && phase.First?
      modifies `phase, `countWordSent, `prevWord, `cmdOut, `dataOut
      ensures View() == TakeWord(old(View()), currWord).0
      ensures dataOut == old(dataOut) + [TakeWord(old(View()), currWord).1]
      ensures cmdOut == old(cmdOut) + if old(countWordSent) == old(numberOfWords) then [SecondCmd(old(View()))] else []
    {
      var sendWord := currWord;
      if countWordSent == numberOfWords {
        sendWord := Word(KeepLanes(currWord.lanes, byteOffset), true);
        cmdOut := cmdOut + [Cmd(BufferStart(inputCommand.addr), inputCommand.length - bytesFirstCommand)];
        if currWord.last {
          phase := Extra;
        } else {
          phase := Second;
        }
      }
      countWordSent := (countWordSent + 1) % 1024;
      prevWord := currWord;
      dataOut := dataOut + [sendWord];
    }

    method ForwardSecond(currWord: Word)
      requires Valid() && phase.Second?
      modifies `phase, `prevWord, `dataOut
      ensures View() == TakeWord(old(View()), currWord).0
      ensures dataOut == old(dataOut) + [TakeWord(old(View()), currWord).1]
    {
      var last := false;
      if currWord.last {
        if currWord.lanes[byteOffset].keep && byteOffset != 0 {
          phase := Extra;
        } else {
          phase := WaitCmd;
          last := true;
        }
      }
      dataOut := dataOut + [Word(AlignTo(currWord, prevWord, byteOffset), last)];
      prevWord := currWord;
    }

    method ForwardWord()
      requires Valid() && dataIn != [] && (phase.Forward? || phase.First? || phase.Second?)
      modifies this
      ensures Valid() && View() == TakeWord(old(View()), old(dataIn[0])).0
      ensures dataIn == old(dataIn)[1..] && dataOut == old(dataOut) + [TakeWord(old(View()), old(dataIn[0])).1]
    {
      var currWord := dataIn[0];
      dataIn := dataIn[1..];
      if phase.First? {
        ForwardFirst(currWord);
      } else if phase.Second? {
        ForwardSecond(currWord);
      } else {
        dataOut := dataOut + [currWord];
        if currWord.last {
          phase := WaitCmd;
        }
      }
    }

    method ForwardExtra()
      requires Valid() && phase.Extra?
      modifies `phase, `dataOut
      ensures phase.WaitCmd? && dataOut == old(dataOut) + [ExtraWord(old(View()))]
    {
      dataOut := dataOut + [Word(AlignTo(ZERO, prevWord, byteOffset), true)];
      phase := WaitCmd;
    }
  }
}
