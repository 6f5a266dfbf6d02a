/** 64-byte stream words, packets made of them, and the two byte realigners of common_utilities. */
module Words {
  import opened ToeTypes

  /** One byte lane of a word with its keep bit. */
  datatype Lane = Lane(data: Byte, keep: bool)

  const EMPTY: Lane := Lane(0, false)
  const LANES: nat := 64

  type Lanes = l: seq<Lane> | |l| == LANES witness seq(LANES, _ => EMPTY)

  datatype Word = Word(lanes: Lanes, last: bool)

  function Blank(n: nat): (r: seq<Lane>)
    ensures |r| == n && forall i :: 0 <= i < n ==> !r[i].keep
  {
    seq(n, _ => EMPTY)
  }

  const ZERO: Word := Word(Blank(LANES), false)

  /** align_words_to_memory: the previous word from lane k on, then the first k lanes of the current one. */
  function AlignTo(curr: Word, prev: Word, k: nat): Lanes
    requires k < LANES
  {
    if k == 0 then curr.lanes else prev.lanes[k..] + curr.lanes[..k]
  }

  /** align_words_from_memory: the first k lanes of the previous word, then the current one. */
  function AlignFrom(curr: Word, prev: Word, k: nat): Lanes
    requires k < LANES
  {
    if k == 0 then curr.lanes else prev.lanes[..k] + curr.lanes[..LANES - k]
  }

  /** The lanes of a sequence of words. */
  function Flat(ws: seq<Word>): (f: seq<Lane>)
    ensures |f| == LANES * |ws|
  {
    if ws == [] then [] else ws[0].lanes + Flat(ws[1..])
  }

  lemma {:induction false} LanesAssociate(a: seq<Lane>, b: seq<Lane>, c: seq<Lane>)
    ensures a + (b + c) == (a + b) + c
  {}

  lemma {:induction false} FlatCat(a: seq<Word>, b: seq<Word>)
    ensures Flat(a + b) == Flat(a) + Flat(b)
  {
    if a == [] {
      assert a + b == b;
    } else {
      FlatCat(a[1..], b);
      assert (a + b)[1..] == a[1..] + b;
      LanesAssociate(a[0].lanes, Flat(a[1..]), Flat(b));
    }
  }

  /** Lane i carries byte i of p, or nothing when p has no byte i. */
  predicate LaneOk(f: seq<Lane>, p: seq<Byte>, i: int) {
    0 <= i < |f| && (f[i].keep <==> i < |p|) && (i < |p| ==> f[i].data == p[i])
  }

  /** The first |p| lanes carry the bytes p and no further lane is kept. */
  predicate Carries(f: seq<Lane>, p: seq<Byte>) {
    |p| <= |f| && forall i {:trigger LaneOk(f, p, i)} :: 0 <= i < |f| ==> LaneOk(f, p, i)
  }

  predicate LastAt(ws: seq<Word>, i: int) { 0 <= i < |ws| && (ws[i].last <==> i == |ws| - 1) }

  /** Exactly the last word has the last flag. */
  predicate LastOnly(ws: seq<Word>) { forall i {:trigger LastAt(ws, i)} :: 0 <= i < |ws| ==> LastAt(ws, i) }

  function WordsFor(n: nat): nat { (n + LANES - 1) / LANES }

  /** A well-packed packet: full words but for the last, which carries the rest and the only last flag. */
  predicate Packed(ws: seq<Word>, p: seq<Byte>) {
    |p| > 0 && |ws| == WordsFor(|p|) && LastOnly(ws) && Carries(Flat(ws), p)
  }

  lemma {:induction false} CarriesDrop(f: seq<Lane>, p: seq<Byte>, k: nat)
    requires Carries(f, p) && k <= |p|
    ensures Carries(f[k..], p[k..])
  {
    forall i | 0 <= i < |f| - k ensures LaneOk(f[k..], p[k..], i) { assert LaneOk(f, p, i + k); }
  }

  lemma {:induction false} CarriesTake(f: seq<Lane>, p: seq<Byte>, n: nat)
    requires Carries(f, p) && |p| <= n <= |f|
    ensures Carries(f[..n], p)
  {
    forall i | 0 <= i < n ensures LaneOk(f[..n], p, i) { assert LaneOk(f, p, i); }
  }

  lemma {:induction false} CarriesPad(f: seq<Lane>, p: seq<Byte>, n: nat)
    requires Carries(f, p)
    ensures Carries(f + Blank(n), p)
  {
    forall i | 0 <= i < |f| + n ensures LaneOk(f + Blank(n), p, i) { if i < |f| { assert LaneOk(f, p, i); } }
  }

  lemma {:induction false} CarriesPrefix(f: seq<Lane>, p: seq<Byte>, n: nat)
    requires Carries(f, p) && n <= |p|
    ensures Carries(f[..n], p[..n])
  {
    forall i | 0 <= i < n ensures LaneOk(f[..n], p[..n], i) { assert LaneOk(f, p, i); }
  }

  lemma {:induction false} CarriesCat(f: seq<Lane>, p: seq<Byte>, g: seq<Lane>, q: seq<Byte>)
    requires Carries(f, p) && |f| == |p| && Carries(g, q)
    ensures Carries(f + g, p + q)
  {
    forall i | 0 <= i < |f| + |g| ensures LaneOk(f + g, p + q, i) {
      if i < |f| { assert LaneOk(f, p, i); } else { assert LaneOk(g, q, i - |f|); }
    }
  }

  lemma {:induction false} KeptAt(f: seq<Lane>, p: seq<Byte>, i: nat)
    requires Carries(f, p) && i < |f|
    ensures f[i].keep <==> i < |p|
  {
    assert LaneOk(f, p, i);
  }

  /** Lanes carry one number of bytes only. */
  lemma {:induction false} CarriesLength(f: seq<Lane>, p: seq<Byte>, q: seq<Byte>)
    requires Carries(f, p) && Carries(f, q)
    ensures |p| == |q|
  {
    var i := if |p| < |q| then |p| else |q|;
    if i < |f| {
      KeptAt(f, p, i);
      KeptAt(f, q, i);
    }
  }

  lemma {:induction false} FlatSplit(xs: seq<Word>, n: nat)
    requires n <= |xs|
    ensures Flat(xs) == Flat(xs[..n]) + Flat(xs[n..])
    ensures Flat(xs)[..LANES * n] == Flat(xs[..n]) && Flat(xs)[LANES * n..] == Flat(xs[n..])
  {
    FlatCat(xs[..n], xs[n..]);
    assert xs[..n] + xs[n..] == xs;
  }

  lemma {:induction false} FlatOne(x: Word)
    ensures Flat([x]) == x.lanes
  {
    assert Flat([x]) == x.lanes + Flat([]);
  }

  lemma {:induction false} FlatCons(x: Word, xs: seq<Word>)
    ensures Flat([x] + xs) == x.lanes + Flat(xs)
  {
    assert ([x] + xs)[1..] == xs;
  }

  lemma {:induction false} LastOnlyTail(xs: seq<Word>)
    requires LastOnly(xs) && |xs| > 1
    ensures LastOnly(xs[1..]) && !xs[0].last
  {
    assert LastAt(xs, 0);
    LastOnlyDrop(xs, 1);
  }

  lemma {:induction false} LastOnlyCons(y: Word, ys: seq<Word>)
    requires LastOnly(ys) && ys != [] && !y.last
    ensures LastOnly([y] + ys)
  {
    forall i | 0 <= i <= |ys| ensures LastAt([y] + ys, i) { if i > 0 { assert LastAt(ys, i - 1); } }
  }

  lemma {:induction false} LastOnlyOne(y: Word)
    requires y.last
    ensures LastOnly([y])
  {}

  lemma {:induction false} OnlyWord(xs: seq<Word>)
    requires LastOnly(xs) && |xs| == 1
    ensures xs[0].last
  {
    assert LastAt(xs, 0);
  }

  lemma {:induction false} LastOnlyDrop(xs: seq<Word>, n: nat)
    requires LastOnly(xs) && n < |xs|
    ensures LastOnly(xs[n..])
  {
    forall i | 0 <= i < |xs| - n ensures LastAt(xs[n..], i) { assert LastAt(xs, i + n); }
  }

  // ----- realigning a packet -----

  /** What a realigner by k lanes sends for the words xs behind a word prev: each word is the previous one from lane k on and
      the first k lanes of the next; one extra word if the last input word has lanes left. */
  function Shift(prev: Lanes, xs: seq<Word>, k: nat): seq<Word>
    requires 0 < k < LANES
    decreases |xs|
  {
    if xs == [] then [Word(prev[k..] + Blank(k), true)]
    else if |xs| == 1 && !xs[0].lanes[k].keep then [Word(prev[k..] + xs[0].lanes[..k], true)]
    else [Word(prev[k..] + xs[0].lanes[..k], false)] + Shift(xs[0].lanes, xs[1..], k)
  }

  /** Whether the extra word is needed. */
  predicate Extra(xs: seq<Word>, k: nat)
    requires 0 < k < LANES
  {
    xs == [] || xs[|xs| - 1].lanes[k].keep
  }

  /** One realigned word ahead of the rest. */
  lemma {:induction false} ShiftStep(prev: Lanes, x: Lanes, g: seq<Lane>, k: nat, n: nat)
    requires 0 < k < LANES && n <= |x[k..] + g|
    ensures (prev[k..] + x[..k]) + (x[k..] + g) == prev[k..] + (x + g)
    ensures (prev[k..] + x[..k]) + (x[k..] + g)[..n] == (prev[k..] + (x + g))[..LANES + n]
  {}

  /** The words sent carry the lanes f, the last word padded if there is an extra one. */
  predicate Shifted(ys: seq<Word>, f: seq<Lane>, n: nat, k: nat, extra: bool)
    requires k < LANES && LANES * n <= |f|
  {
    LastOnly(ys) && |ys| == n + (if extra then 1 else 0) && Flat(ys) == if extra then f + Blank(k) else f[..LANES * n]
  }

  lemma {:induction false} ShiftFlatStep(prev: Lanes, x: Word, rest: seq<Word>, g: seq<Lane>, n: nat, k: nat, extra: bool)
    requires 0 < k < LANES && |g| == LANES * n && (extra || n > 0) && Shifted(rest, x.lanes[k..] + g, n, k, extra)
    ensures Shifted([Word(prev[k..] + x.lanes[..k], false)] + rest, prev[k..] + (x.lanes + g), n + 1, k, extra)
  {
    var y := Word(prev[k..] + x.lanes[..k], false);
    LastOnlyCons(y, rest);
    FlatCons(y, rest);
    ShiftStep(prev, x.lanes, g, k, LANES * n);
    if extra { LanesAssociate(y.lanes, x.lanes[k..] + g, Blank(k)); }
  }

  /** The lanes sent are the input lanes from lane k of the first word on, padded if there is an extra word. */
  lemma {:induction false} ShiftFlat(prev: Lanes, xs: seq<Word>, k: nat)
    requires 0 < k < LANES
    ensures Shifted(Shift(prev, xs, k), prev[k..] + Flat(xs), |xs|, k, Extra(xs, k))
    decreases |xs|
  {
    if xs == [] {
      FlatOne(Word(prev[k..] + Blank(k), true));
      LastOnlyOne(Word(prev[k..] + Blank(k), true));
      assert prev[k..] + Flat(xs) == prev[k..];
    } else if |xs| == 1 && !xs[0].lanes[k].keep {
      assert xs == [xs[0]];
      FlatOne(xs[0]);
      FlatOne(Word(prev[k..] + xs[0].lanes[..k], true));
      LastOnlyOne(Word(prev[k..] + xs[0].lanes[..k], true));
    } else {
      ShiftFlat(xs[0].lanes, xs[1..], k);
      ShiftFlatStep(prev, xs[0], Shift(xs[0].lanes, xs[1..], k), Flat(xs[1..]), |xs| - 1, k, Extra(xs, k));
    }
  }

  /** Realigning by k: whatever payload lies in the input from lane k of the first word on comes out well packed. */
  lemma {:induction false} ShiftPacked(prev: Lanes, xs: seq<Word>, k: nat, q: seq<Byte>)
    requires 0 < k < LANES && Carries(prev[k..] + Flat(xs), q)
    requires 0 < |q| && LANES * (|xs| - 1) < |q|
    ensures Packed(Shift(prev, xs, k), q)
  {
    var f := prev[k..] + Flat(xs);
    ShiftFlat(prev, xs, k);
    if xs != [] {
      FlatSplit(xs, |xs| - 1);
      assert xs[|xs| - 1..] == [xs[|xs| - 1]];
      FlatOne(xs[|xs| - 1]);
      assert f[LANES * |xs|] == xs[|xs| - 1].lanes[k];
    }
    assert LaneOk(f, q, LANES * |xs|);
    assert Extra(xs, k) <==> LANES * |xs| < |q|;
    if Extra(xs, k) { CarriesPad(f, q, k); } else { CarriesTake(f, q, LANES * |xs|); }
  }

  lemma {:induction false} DropInto<T>(a: seq<T>, x: seq<T>, g: seq<T>, b: nat)
    requires |a| <= b <= |a| + |x|
    ensures (a + (x + g))[b..] == x[b - |a|..] + g
  {}

  lemma {:induction false} FlatAround(xs: seq<Word>, n: nat)
    requires 0 < n <= |xs|
    ensures Flat(xs) == Flat(xs[..n - 1]) + (xs[n - 1].lanes + Flat(xs[n..]))
  {
    var a, rest := xs[..n - 1], xs[n - 1..];
    FlatCat(a, rest);
    assert a + rest == xs;
    FlatCons(xs[n - 1], xs[n..]);
    assert [xs[n - 1]] + xs[n..] == rest;
  }

  /** The lanes from b on, when b lies in the n-th word. */
  lemma {:induction false} FlatFrom(xs: seq<Word>, b: nat, n: nat)
    requires 0 < n <= |xs| && LANES * (n - 1) < b < LANES * n
    ensures Flat(xs)[b..] == xs[n - 1].lanes[b - LANES * (n - 1)..] + Flat(xs[n..])
  {
    FlatAround(xs, n);
    DropInto(Flat(xs[..n - 1]), xs[n - 1].lanes, Flat(xs[n..]), b);
  }

  /** Dropping the first b bytes of a packet by realigning behind the word in which they end. */
  lemma {:induction false} ShiftDrops(xs: seq<Word>, p: seq<Byte>, b: nat, n: nat)
    requires Packed(xs, p) && b < |p| && 0 < n <= |xs| && LANES * (n - 1) < b < LANES * n
    ensures Packed(Shift(xs[n - 1].lanes, xs[n..], b - LANES * (n - 1)), p[b..])
  {
    FlatFrom(xs, b, n);
    CarriesDrop(Flat(xs), p, b);
    ShiftPacked(xs[n - 1].lanes, xs[n..], b - LANES * (n - 1), p[b..]);
  }

  // ----- realigning word by word -----

  /** What follows a realigned word: another input word, the extra word, or nothing. */
  datatype Next = More | Flush | Finished

  /** One step of a realigner that holds prev and reads x. */
  function ShiftWord(prev: Lanes, x: Word, k: nat): (Word, Next)
    requires 0 < k < LANES
  {
    var lanes: Lanes := prev[k..] + x.lanes[..k];
    if !x.last then (Word(lanes, false), More)
    else if x.lanes[k].keep then (Word(lanes, false), Flush)
    else (Word(lanes, true), Finished)
  }

  function FlushWord(prev: Lanes, k: nat): Word
    requires 0 < k < LANES
  {
    Word(prev[k..] + Blank(k), true)
  }

  /** Shift is what the steps send, one after the other. */
  lemma {:induction false} ShiftUnrolls(prev: Lanes, xs: seq<Word>, k: nat)
    requires 0 < k < LANES && LastOnly(xs)
    ensures xs == [] ==> Shift(prev, xs, k) == [FlushWord(prev, k)]
    ensures xs != [] ==>
              var (y, next) := ShiftWord(prev, xs[0], k);
              && (next.More? <==> |xs| > 1)
              && Shift(prev, xs, k) == [y] + (if next.Finished? then [] else Shift(xs[0].lanes, xs[1..], k))
  {
    if xs != [] { assert LastAt(xs, 0); }
  }

  /** n valid lanes at the end of a word, where a realigner by LANES - n picks them up. */
  function Held(lanes: Lanes, n: nat): Lanes
    requires n <= LANES
  {
    Blank(LANES - n) + lanes[..n]
  }

  /** A header of n bytes put in front of a packet by realigning the packet behind it. */
  lemma {:induction false} HeaderInFront(header: Lanes, h: seq<Byte>, xs: seq<Word>, q: seq<Byte>)
    requires 0 < |h| < LANES && Carries(header[..|h|], h) && Packed(xs, q)
    ensures Packed(Shift(Held(header, |h|), xs, LANES - |h|), h + q)
  {
    assert Held(header, |h|)[LANES - |h|..] == header[..|h|];
    CarriesCat(header[..|h|], h, Flat(xs), q);
    ShiftPacked(Held(header, |h|), xs, LANES - |h|, h + q);
  }

  /** The first k bytes of a packet dropped. */
  lemma {:induction false} FrontDropped(xs: seq<Word>, p: seq<Byte>, k: nat)
    requires Packed(xs, p) && 0 < k < LANES && k < |p|
    ensures Packed(Shift(xs[0].lanes, xs[1..], k), p[k..])
  {
    ShiftDrops(xs, p, k, 1);
  }

  lemma {:induction false} FirstLane(xs: seq<Word>, p: seq<Byte>, i: nat)
    requires Packed(xs, p) && i < LANES && i < |p|
    ensures xs[0].lanes[i] == Lane(p[i], true)
  {
    assert Flat(xs)[i] == xs[0].lanes[i];
    assert LaneOk(Flat(xs), p, i);
  }
}
