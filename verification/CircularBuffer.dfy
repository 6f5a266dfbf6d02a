/** One session's circular buffer: the mathematical store and fetch, and the word-by-word memory they stand for
    (the behaviour of the repository's dummy memory). */
module CircularBuffer {
  import opened ToeTypes
  import opened Words

  type Buffer = m: seq<Byte> | |m| == BUFFER_SIZE witness seq(BUFFER_SIZE, _ => 0)

  /** A data mover command: byte address and length. */
  datatype Cmd = Cmd(addr: Seq32, length: nat)

  function Offset(addr: Seq32): Win18 { addr % BUFFER_SIZE }

  /** The start of the buffer an address lies in. */
  function BufferStart(addr: Seq32): Seq32 { addr - addr % BUFFER_SIZE }

  function StoredByte(m: Buffer, addr: Win18, data: seq<Byte>, x: Win18): Byte {
    if Mod18(x - addr) < |data| then data[Mod18(x - addr)] else m[x]
  }

  /** A circular store: byte i goes to addr + i modulo the buffer size. */
  function Store(m: Buffer, addr: Win18, data: seq<Byte>): Buffer {
    seq(BUFFER_SIZE, x requires 0 <= x < BUFFER_SIZE => StoredByte(m, addr, data, x))
  }

  function Fetch(m: Buffer, addr: Win18, length: nat): seq<Byte> { seq(length, i => m[Mod18(addr + i)]) }

  lemma {:induction false} StoredOnce(m: Buffer, addr: Win18, data: seq<Byte>, i: nat)
    requires i < |data| <= BUFFER_SIZE
    ensures Mod18(Mod18(addr + i) - addr) == i
  {
    Mod18Diff(addr + i, addr);
  }

  /** Fetching a range returns what was last stored there. */
  lemma {:induction false} FetchAfterStore(m: Buffer, addr: Win18, data: seq<Byte>)
    requires |data| <= BUFFER_SIZE
    ensures Fetch(Store(m, addr, data), addr, |data|) == data
  {
    forall i: nat | i < |data| ensures Fetch(Store(m, addr, data), addr, |data|)[i] == data[i] {
      StoredOnce(m, addr, data, i);
    }
  }

  /** A store reaches exactly the addresses of its range: byte i at addr + i, everything else as before. */
  lemma {:induction false} StoreExactly(m: Buffer, addr: Win18, data: seq<Byte>, x: Win18)
    requires |data| <= BUFFER_SIZE
    ensures Mod18(x - addr) < |data| ==> Store(m, addr, data)[x] == data[Mod18(x - addr)] && x == Mod18(addr + Mod18(x - addr))
    ensures Mod18(x - addr) >= |data| ==> Store(m, addr, data)[x] == m[x]
  {
    Mod18Add(x - addr, addr);
    assert Mod18(x) == x;
  }

  lemma {:induction false} ShiftedOffset(at: int, addr: int, n: int)
    ensures Mod18(at - Mod18(addr + n)) == Mod18(Mod18(at - addr) - n)
  {
    var k: int := (addr + n) / BUFFER_SIZE;
    var b: int := Mod18(addr + n);
    assert b == addr + n - k * BUFFER_SIZE;
    Mod18Add(at - addr, -n);
    assert at - b == (at - addr - n) + k * BUFFER_SIZE;
  }

  lemma {:induction false} SplitByte(m: Buffer, addr: Win18, x: seq<Byte>, y: seq<Byte>, at: Win18)
    requires |x| + |y| <= BUFFER_SIZE
    ensures StoredByte(Store(m, addr, x), Mod18(addr + |x|), y, at) == StoredByte(m, addr, x + y, at)
  {
    var d := Mod18(at - addr);
    ShiftedOffset(at, addr, |x|);
    assert Mod18(d - |x|) == if d >= |x| then d - |x| else d - |x| + BUFFER_SIZE;
    assert Store(m, addr, x)[at] == StoredByte(m, addr, x, at);
  }

  /** Two adjacent stores are one. */
  lemma {:induction false} StoreSplit(m: Buffer, addr: Win18, x: seq<Byte>, y: seq<Byte>)
    requires |x| + |y| <= BUFFER_SIZE
    ensures Store(Store(m, addr, x), Mod18(addr + |x|), y) == Store(m, addr, x + y)
  {
    forall at | 0 <= at < BUFFER_SIZE
      ensures Store(Store(m, addr, x), Mod18(addr + |x|), y)[at] == Store(m, addr, x + y)[at]
    {
      SplitByte(m, addr, x, y, at);
    }
  }

  lemma {:induction false} FetchSplit(m: Buffer, addr: Win18, a: nat, b: nat)
    ensures Fetch(m, addr, a + b) == Fetch(m, addr, a) + Fetch(m, Mod18(addr + a), b)
  {
    var x, y := Fetch(m, addr, a + b), Fetch(m, Mod18(addr + a), b);
    forall j: nat | j < b ensures y[j] == x[a + j] {
      Mod18Add(addr + a, j);
    }
  }

  // ----- the memory, word by word -----

  /** Writing the kept lanes of one word from addr on, stopping at the first lane that is not kept. */
  function WriteLanes(m: Buffer, addr: Win18, lanes: seq<Lane>): (Buffer, Win18)
    decreases |lanes|
  {
    if lanes == [] || !lanes[0].keep then (m, addr)
    else WriteLanes(m[addr := lanes[0].data], Mod18(addr + 1), lanes[1..])
  }

  function WriteWords(m: Buffer, addr: Win18, ws: seq<Word>): Buffer
    decreases |ws|
  {
    if ws == [] then m
    else var (m', addr') := WriteLanes(m, addr, ws[0].lanes); WriteWords(m', addr', ws[1..])
  }

  function ReadLane(m: Buffer, addr: Win18, left: nat, i: nat): Lane {
    if i < left then Lane(m[Mod18(addr + i)], true) else EMPTY
  }

  /** Reading one word: up to 64 bytes, the keep bits saying how many, the last flag when nothing is left. */
  function ReadWord(m: Buffer, addr: Win18, left: nat): Word {
    Word(seq(LANES, i requires 0 <= i < LANES => ReadLane(m, addr, left, i)), left <= LANES)
  }

  function ReadWords(m: Buffer, addr: Win18, left: nat): seq<Word>
    decreases left
  {
    [ReadWord(m, addr, left)] + if left <= LANES then [] else ReadWords(m, Mod18(addr + LANES), left - LANES)
  }

  lemma {:induction false} StoreNothing(m: Buffer, addr: Win18)
    ensures Store(m, addr, []) == m
  {}

  lemma {:induction false} StoreOne(m: Buffer, addr: Win18, b: Byte)
    ensures Store(m, addr, [b]) == m[addr := b]
  {
    forall at | 0 <= at < BUFFER_SIZE ensures Store(m, addr, [b])[at] == m[addr := b][at] {}
  }

  lemma {:induction false} WriteLanesStores(m: Buffer, addr: Win18, lanes: seq<Lane>, p: seq<Byte>)
    requires Carries(lanes, p) && |p| <= BUFFER_SIZE
    ensures WriteLanes(m, addr, lanes) == (Store(m, addr, p), Mod18(addr + |p|))
    decreases |lanes|
  {
    StoreNothing(m, addr);
    if lanes != [] { assert LaneOk(lanes, p, 0); }
    if p != [] {
      StoreOne(m, addr, p[0]);
      CarriesDrop(lanes, p, 1);
      WriteLanesStores(m[addr := p[0]], Mod18(addr + 1), lanes[1..], p[1..]);
      StoreSplit(m, addr, [p[0]], p[1..]);
      assert [p[0]] + p[1..] == p;
      Mod18Add(addr + 1, |p| - 1);
    } else {
      assert lanes == [] || !lanes[0].keep;
      assert p == [];
    }
  }

  /** Writing a well-packed packet word by word is one circular store. */
  lemma {:induction false} WriteWordsStores(m: Buffer, addr: Win18, ws: seq<Word>, p: seq<Byte>)
    requires Carries(Flat(ws), p) && |ws| == WordsFor(|p|) && |p| <= BUFFER_SIZE
    ensures WriteWords(m, addr, ws) == Store(m, addr, p)
    decreases |ws|
  {
    if ws == [] {
      assert p == [];
      StoreNothing(m, addr);
    } else {
      var f, n := Flat(ws), if |p| < LANES then |p| else LANES;
      assert f[..LANES] == ws[0].lanes && f[LANES..] == Flat(ws[1..]);
      FirstWord(f, p, n);
      WriteLanesStores(m, addr, ws[0].lanes, p[..n]);
      WriteWordsStores(Store(m, addr, p[..n]), Mod18(addr + n), ws[1..], p[n..]);
      StoreSplit(m, addr, p[..n], p[n..]);
      assert p[..n] + p[n..] == p;
    }
  }

  lemma {:induction false} FirstWord(f: seq<Lane>, p: seq<Byte>, n: nat)
    requires Carries(f, p) && |f| >= LANES && n == if |p| < LANES then |p| else LANES
    ensures Carries(f[..LANES], p[..n]) && Carries(f[LANES..], p[n..])
  {
    if |p| < LANES {
      CarriesTake(f, p, LANES);
      assert p[..n] == p;
      forall i | 0 <= i < |f| - LANES ensures LaneOk(f[LANES..], [], i) { assert LaneOk(f, p, i + LANES); }
    } else {
      CarriesPrefix(f, p, n);
      CarriesDrop(f, p, n);
    }
  }

  lemma {:induction false} PackedCons(w: Word, rest: seq<Word>, p: seq<Byte>, q: seq<Byte>)
    requires Carries(w.lanes, p) && |p| == LANES && !w.last && Packed(rest, q)
    ensures Packed([w] + rest, p + q)
  {
    assert ([w] + rest)[1..] == rest;
    CarriesCat(w.lanes, p, Flat(rest), q);
    LastOnlyCons(w, rest);
  }

  lemma {:induction false} ReadWordCarries(m: Buffer, addr: Win18, left: nat)
    ensures Carries(ReadWord(m, addr, left).lanes, Fetch(m, addr, if left < LANES then left else LANES))
  {
    var w, p := ReadWord(m, addr, left), Fetch(m, addr, if left < LANES then left else LANES);
    forall i | 0 <= i < LANES ensures LaneOk(w.lanes, p, i) { assert w.lanes[i] == ReadLane(m, addr, left, i); }
  }

  /** Reading word by word yields the fetched range as a well-packed packet. */
  lemma {:induction false} ReadWordsPacked(m: Buffer, addr: Win18, left: nat)
    requires 0 < left
    ensures Packed(ReadWords(m, addr, left), Fetch(m, addr, left))
    decreases left
  {
    ReadWordCarries(m, addr, left);
    var w := ReadWord(m, addr, left);
    if left <= LANES {
      FlatOne(w);
      LastOnlyOne(w);
    } else {
      ReadWordsPacked(m, Mod18(addr + LANES), left - LANES);
      FetchSplit(m, addr, LANES, left - LANES);
      PackedCons(w, ReadWords(m, Mod18(addr + LANES), left - LANES), Fetch(m, addr, LANES),
                 Fetch(m, Mod18(addr + LANES), left - LANES));
    }
  }
}
