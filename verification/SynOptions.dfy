/** The options of a SYN (rxParseTcpOptions): parsed one option a step, shifting the 32 option bytes that lie in the first word. */
module SynOptions {
  import opened ToeTypes
  import WireRx
  import WireTx

  // ----- option lists -----

  /** The options of RFC 793 section 3.1 as far as the parser tells them apart; kind 3 is Window Scale (RFC 7323 section 2.2). */
  datatype TcpOption =
    | Nop
    | WindowScale(shift: Byte)
    | Other(kind: Byte, data: seq<Byte>)

  predicate OptionOk(o: TcpOption) {
    o.Other? ==> o.kind > 1 && |o.data| <= 253 && (o.kind == 3 ==> |o.data| != 1)
  }

  predicate OptionsOk(os: seq<TcpOption>) { forall i {:trigger os[i]} :: 0 <= i < |os| ==> OptionOk(os[i]) }

  function Length(o: TcpOption): nat {
    match o
    case Nop => 1
    case WindowScale(_) => 3
    case Other(_, data) => 2 + |data|
  }

  /** How an option is written. */
  function Encode(o: TcpOption): (b: seq<Byte>)
    requires OptionOk(o)
    ensures |b| == Length(o) > 0
  {
    match o
    case Nop => [1]
    case WindowScale(shift) => [3, 3, shift]
    case Other(kind, data) => [kind, 2 + |data|] + data
  }

  function EncodeAll(os: seq<TcpOption>): seq<Byte>
    requires OptionsOk(os)
  {
    if os == [] then [] else Encode(os[0]) + EncodeAll(os[1..])
  }

  function Capped(shift: Byte): Bits4 { if shift % 16 > WINDOW_SCALE_BITS then WINDOW_SCALE_BITS else shift % 16 }

  /** The smaller of the shift and 2, exactly unless its low four bits, which are all that is read, make it smaller. */
  lemma {:induction false} CappedExactly(shift: Byte)
    ensures Capped(shift) == (if shift < 2 then shift else 2) <==> shift < 16 || shift % 16 >= 2
  {}

  /** The value the first option of kind 3 announces, capped; 0 when there is none or it has the wrong length. */
  function FirstScale(os: seq<TcpOption>): Bits4 {
    if os == [] then 0
    else match os[0]
      case WindowScale(shift) => Capped(shift)
      case Nop => FirstScale(os[1..])
      case Other(kind, _) => if kind == 3 then 0 else FirstScale(os[1..])
  }

  // ----- the parser -----

  type Bytes32 = b: seq<Byte> | |b| == 32 witness seq(32, _ => 0)

  /** The metadata of a segment: what the parser looks at, and the rest. */
  datatype MetaInfo = MetaInfo(syn: bool, tcpOffset: Bits4, scale: Bits4, options: Bytes32, rest: WireRx.RxMeta)

  datatype Parser = Parser(parsing: bool, meta: MetaInfo, byteOffset: nat, optionsSize: nat, metaIn: seq<MetaInfo>, metaOut: seq<MetaInfo>)

  /** tcpOptions >> 8 * n: zeros come in at the end. */
  function Shifted(o: Bytes32, n: nat): Bytes32 { seq(32, i requires 0 <= i < 32 => if i + n < 32 then o[i + n] else 0) }

  /** A kind 3 option of length 3 sets the scale. */
  function Scaled(m: MetaInfo): MetaInfo {
    if m.options[0] == 3 && m.options[1] == 3 then m.(scale := Capped(m.options[2])) else m
  }

  function OptionLength(o: Bytes32): Byte { if o[0] == 1 then 1 else o[1] }

  function Step(p: Parser): Parser {
    if !p.parsing then
      if p.metaIn == [] then p
      else
        var m := p.metaIn[0];
        if m.tcpOffset > 5 && m.syn
        then p.(metaIn := p.metaIn[1..], meta := m, byteOffset := 0, optionsSize := (m.tcpOffset - 5) * 4, parsing := true)
        else p.(metaIn := p.metaIn[1..], meta := m, metaOut := p.metaOut + [m])
    else if p.optionsSize > p.byteOffset then
      var n := OptionLength(p.meta.options);
      var m := Scaled(p.meta);
      var q := p.(meta := m.(options := Shifted(m.options, n)), byteOffset := (p.byteOffset + n) % 64);
      if m.options[0] == 0 || m.options[0] == 3 then q.(metaOut := q.metaOut + [q.meta], parsing := false) else q
    else
      p.(metaOut := p.metaOut + [p.meta], parsing := false)
  }

  function Steps(p: Parser, n: nat): Parser
    decreases n
  {
    if n == 0 then p else Steps(Step(p), n - 1)
  }

  // ----- refinement -----

  /** Byte i of the shift register and of the zeros behind it. */
  function ByteAt(o: Bytes32, i: nat): Byte { if i < 32 then o[i] else 0 }

  lemma {:induction false} ShiftedAt(o: Bytes32, n: nat, i: nat)
    ensures ByteAt(Shifted(o, n), i) == ByteAt(o, i + n)
  {}

  predicate Spells(o: Bytes32, e: seq<Byte>) { |e| <= 32 && o[..|e|] == e }

  /** The register holds the bytes e next, and behind them the end: the end of the option area or an end-of-list byte. */
  predicate HoldsBytes(o: Bytes32, size: nat, offset: nat, e: seq<Byte>) {
    offset + |e| <= 32 && offset + |e| <= size && Spells(o, e) && (offset + |e| == size || ByteAt(o, |e|) == 0)
  }

  predicate Holds(o: Bytes32, size: nat, offset: nat, os: seq<TcpOption>)
    requires OptionsOk(os)
  {
    HoldsBytes(o, size, offset, EncodeAll(os))
  }

  lemma {:induction false} TailOk(os: seq<TcpOption>)
    requires OptionsOk(os) && os != []
    ensures OptionOk(os[0]) && OptionsOk(os[1..])
  {
    forall i | 0 <= i < |os| - 1 ensures OptionOk(os[1..][i]) { assert os[1..][i] == os[i + 1]; }
  }

  lemma {:induction false} SpellsAfter(o: Bytes32, a: seq<Byte>, e: seq<Byte>)
    requires Spells(o, a + e)
    ensures Spells(o, a) && Spells(Shifted(o, |a|), e)
  {
    assert o[..|a|] == (a + e)[..|a|] == a;
    forall i | 0 <= i < |e| ensures Shifted(o, |a|)[i] == e[i] {
      assert o[..|a + e|][i + |a|] == (a + e)[i + |a|];
    }
  }

  lemma {:induction false} BytesAfter(o: Bytes32, size: nat, offset: nat, a: seq<Byte>, e: seq<Byte>)
    requires HoldsBytes(o, size, offset, a + e) && |a| > 0
    ensures Spells(o, a) && HoldsBytes(Shifted(o, |a|), size, offset + |a|, e) && offset + |a| <= 32 && offset < size
  {
    SpellsAfter(o, a, e);
    ShiftedAt(o, |a|, |e|);
  }

  lemma {:induction false} EncodeCons(os: seq<TcpOption>)
    requires OptionsOk(os) && os != []
    ensures OptionOk(os[0]) && OptionsOk(os[1..]) && EncodeAll(os) == Encode(os[0]) + EncodeAll(os[1..])
  {
    TailOk(os);
  }

  /** One option taken off the front. */
  lemma {:induction false} HoldsAfter(o: Bytes32, size: nat, offset: nat, os: seq<TcpOption>)
    requires OptionsOk(os) && os != [] && Holds(o, size, offset, os)
    ensures OptionOk(os[0]) && OptionsOk(os[1..]) && Spells(o, Encode(os[0]))
    ensures offset + Length(os[0]) <= 32 && offset < size
    ensures Holds(Shifted(o, Length(os[0])), size, offset + Length(os[0]), os[1..])
  {
    EncodeCons(os);
    BytesAfter(o, size, offset, Encode(os[0]), EncodeAll(os[1..]));
  }

  lemma {:induction false} FirstBytes(o: Bytes32, opt: TcpOption)
    requires OptionOk(opt) && Spells(o, Encode(opt))
    ensures OptionLength(o) == Length(opt)
    ensures o[0] == match opt case Nop => 1 case WindowScale(_) => 3 case Other(kind, _) => kind
    ensures o[0] == 3 ==> (o[1] == 3 <==> opt.WindowScale?)
    ensures opt.WindowScale? ==> o[2] == opt.shift
  {
    var e := Encode(opt);
    assert o[..|e|][0] == e[0];
    if !opt.Nop? { assert o[..|e|][1] == e[1]; }
    if opt.WindowScale? { assert o[..|e|][2] == e[2]; }
  }

  /** A parser that found what it was to find: the metadata went out with the scale, everything else in it as it came. */
  predicate Reported(q: Parser, p: Parser, scale: Bits4) {
    && !q.parsing && q.metaIn == p.metaIn && |q.metaOut| == |p.metaOut| + 1 && q.metaOut[..|p.metaOut|] == p.metaOut
    && q.metaOut[|p.metaOut|] == p.meta.(scale := scale, options := q.metaOut[|p.metaOut|].options)
  }

  lemma {:induction false} EndReported(p: Parser)
    requires p.parsing && p.meta.scale == 0 && (p.byteOffset >= p.optionsSize || p.meta.options[0] == 0)
    ensures Reported(Step(p), p, 0)
  {}

  lemma {:induction false} KindThree(p: Parser, opt: TcpOption)
    requires p.parsing && p.meta.scale == 0 && p.byteOffset < p.optionsSize && OptionOk(opt) && Spells(p.meta.options, Encode(opt))
    requires opt.WindowScale? || (opt.Other? && opt.kind == 3)
    ensures Reported(Step(p), p, if opt.WindowScale? then Capped(opt.shift) else 0)
  {
    FirstBytes(p.meta.options, opt);
  }

  lemma {:induction false} Skipped(p: Parser, opt: TcpOption)
    requires p.parsing && p.byteOffset < p.optionsSize && OptionOk(opt) && Spells(p.meta.options, Encode(opt))
    requires opt.Nop? || (opt.Other? && opt.kind != 3)
    requires p.byteOffset + Length(opt) <= 32
    ensures Step(p) == p.(meta := p.meta.(options := Shifted(p.meta.options, Length(opt))), byteOffset := p.byteOffset + Length(opt))
  {
    FirstBytes(p.meta.options, opt);
  }

  /** For n steps from p on the parser is parsing, the byte count stays within the register, and every step but the last one takes
      at least one byte. */
  predicate Inside(p: Parser, n: nat)
    decreases n
  {
    n == 0 || (p.parsing && p.byteOffset <= 32 && (n > 1 ==> p.byteOffset < Step(p).byteOffset) && Inside(Step(p), n - 1))
  }

  lemma {:induction false} InsideStep(p: Parser, q: Parser, m: nat)
    requires q == Step(p) && p.parsing && p.byteOffset < q.byteOffset <= 32 && Inside(q, m)
    ensures Inside(p, m + 1) && Steps(p, m + 1) == Steps(q, m)
  {}

  lemma {:induction false} OneStep(p: Parser, q: Parser)
    requires q == Step(p) && p.parsing && p.byteOffset <= 32
    ensures Inside(p, 1) && Steps(p, 1) == q
  {
    assert Steps(p, 1) == Steps(q, 0);
  }

  /** Parsed in n steps, no more than there are bytes left and one. */
  predicate Parsed(p: Parser, scale: Bits4, n: nat) {
    0 < n <= p.optionsSize - p.byteOffset + 1 && Reported(Steps(p, n), p, scale) && Inside(p, n)
  }

  lemma {:induction false} ParsedEarlier(p: Parser, q: Parser, scale: Bits4, m: nat)
    requires q == Step(p) && p.parsing && p.byteOffset < q.byteOffset <= 32 && Parsed(q, scale, m)
    requires q == p.(meta := q.meta, byteOffset := q.byteOffset) && q.meta == p.meta.(options := q.meta.options)
    ensures Parsed(p, scale, m + 1)
  {
    InsideStep(p, q, m);
    ReportedLater(p, q, Steps(q, m), scale);
  }

  lemma {:induction false} ReportedLater(p: Parser, q: Parser, r: Parser, scale: Bits4)
    requires q == p.(meta := q.meta, byteOffset := q.byteOffset) && q.meta == p.meta.(options := q.meta.options) && Reported(r, q, scale)
    ensures Reported(r, p, scale)
  {}

  predicate Decisive(opt: TcpOption) { opt.WindowScale? || (opt.Other? && opt.kind == 3) }

  /** The end of the list, or an option of kind 3: one step. */
  lemma {:induction false} ParsesLast(p: Parser, os: seq<TcpOption>)
    requires p.parsing && p.meta.scale == 0 && OptionsOk(os) && Holds(p.meta.options, p.optionsSize, p.byteOffset, os)
    requires os == [] || Decisive(os[0])
    ensures Parsed(p, FirstScale(os), 1)
  {
    if os == [] {
      EndReported(p);
    } else {
      HoldsAfter(p.meta.options, p.optionsSize, p.byteOffset, os);
      KindThree(p, os[0]);
    }
    OneStep(p, Step(p));
  }

  lemma {:induction false} ParsesPast(p: Parser, q: Parser, os: seq<TcpOption>)
    requires p.parsing && OptionsOk(os) && Holds(p.meta.options, p.optionsSize, p.byteOffset, os)
    requires os != [] && !Decisive(os[0]) && q == Step(p)
    ensures OptionsOk(os[1..]) && Holds(q.meta.options, q.optionsSize, q.byteOffset, os[1..]) && FirstScale(os) == FirstScale(os[1..])
    ensures q == p.(meta := q.meta, byteOffset := q.byteOffset) && q.meta == p.meta.(options := q.meta.options)
    ensures p.byteOffset < q.byteOffset <= 32
  {
    HoldsAfter(p.meta.options, p.optionsSize, p.byteOffset, os);
    Skipped(p, os[0]);
  }

  /** From any place in a well-formed list: the parser ends within as many steps as there are bytes left and one more, the byte
      count never wraps, and what it reports is the first scale. */
  lemma {:induction false} ParsesFrom(p: Parser, os: seq<TcpOption>) returns (n: nat)
    requires p.parsing && p.meta.scale == 0 && OptionsOk(os) && Holds(p.meta.options, p.optionsSize, p.byteOffset, os)
    ensures Parsed(p, FirstScale(os), n)
    decreases |os|
  {
    if os == [] || Decisive(os[0]) {
      ParsesLast(p, os);
      n := 1;
    } else {
      var q := Step(p);
      ParsesPast(p, q, os);
      var m := ParsesFrom(q, os[1..]);
      n := m + 1;
      ParsedEarlier(p, q, FirstScale(os[1..]), m);
    }
  }

  /** Every well-formed option list in the first 32 option bytes is parsed: the SYN goes on within optionsSize + 1 parsing steps,
      with the first Window Scale value capped at WINDOW_SCALE_BITS or 0, and nothing else of it changed. */
  lemma {:induction false} ParsesList(p: Parser, os: seq<TcpOption>) returns (n: nat)
    requires !p.parsing && p.metaIn != [] && p.metaIn[0].syn && p.metaIn[0].tcpOffset > 5 && p.metaIn[0].scale == 0
    requires OptionsOk(os) && Holds(p.metaIn[0].options, (p.metaIn[0].tcpOffset - 5) * 4, 0, os)
    ensures 0 < n <= (p.metaIn[0].tcpOffset - 5) * 4 + 1 && Inside(Step(p), n)
    ensures Reported(Steps(p, n + 1), p.(meta := p.metaIn[0], metaIn := p.metaIn[1..]), FirstScale(os))
  {
    n := ParsesFrom(Step(p), os);
    assert Steps(p, n + 1) == Steps(Step(p), n);
  }

  /** The options the TX engine writes into a SYN. */
  function SynSent(m: WireTx.TcpMeta): seq<TcpOption> {
    [Other(2, WireTx.Be16(MSS))] + if m.rxWinShift != 0 then [WindowScale(m.rxWinShift)] else []
  }

  lemma {:induction false} SynSentOk(m: WireTx.TcpMeta)
    requires m.syn
    ensures OptionsOk(SynSent(m)) && WireTx.Options(m) == EncodeAll(SynSent(m)) + if m.rxWinShift != 0 then [0] else []
  {
    var os := SynSent(m);
    if m.rxWinShift != 0 {
      assert os[1..] == [WindowScale(m.rxWinShift)] && os[1..][1..] == [];
      assert EncodeAll(os[1..]) == [3, 3, m.rxWinShift];
    } else {
      assert os[1..] == [];
    }
  }

  /** They are such a list, and the scale it announces is the one sent, capped: both ends of the wire agree. */
  lemma {:induction false} SynSentIsRead(m: WireTx.TcpMeta, o: Bytes32)
    requires m.syn && Spells(o, WireTx.Options(m))
    ensures OptionsOk(SynSent(m)) && Holds(o, (WireTx.DataOffset(m) - 5) * 4, 0, SynSent(m))
    ensures FirstScale(SynSent(m)) == Capped(m.rxWinShift)
  {
    SynSentOk(m);
    var e := EncodeAll(SynSent(m));
    var options := WireTx.Options(m);
    assert o[..|e|] == o[..|options|][..|e|] == e;
    if m.rxWinShift != 0 {
      assert options[|e|] == 0;
      assert o[..|options|][|e|] == o[|e|];
    }
    assert SynSent(m)[1..] == if m.rxWinShift != 0 then [WindowScale(m.rxWinShift)] else [];
  }

  // ----- exactly when the parser ends -----

  /** The walk over any option bytes o, of which size count, from place at on: it ends behind them, at an end of list, or at an option
      of kind 3, unless it first comes to an unknown option of length zero. */
  predicate WalkEnds(o: Bytes32, size: nat, at: nat)
    decreases 32 - at
  {
    if at >= 32 || at >= size || o[at] == 0 || o[at] == 3 then true
    else if o[at] == 1 then WalkEnds(o, size, at + 1)
    else ByteAt(o, at + 1) != 0 && WalkEnds(o, size, at + ByteAt(o, at + 1))
  }

  /** Outside well-formed lists: an unknown option of length zero is never left. */
  lemma {:induction false} ZeroLengthStalls(p: Parser, n: nat)
    requires p.parsing && p.byteOffset < p.optionsSize && p.byteOffset < 64
    requires p.meta.options[0] !in {0, 1, 3} && p.meta.options[1] == 0
    ensures Steps(p, n) == p
  {
    if n > 0 {
      assert Shifted(p.meta.options, 0) == p.meta.options;
      assert Step(p) == p;
      ZeroLengthStalls(p, n - 1);
    }
  }

  /** The parser is at place at of the option bytes o. */
  predicate AtPlace(p: Parser, o: Bytes32, at: nat) {
    p.parsing && p.meta.options == Shifted(o, at) && p.byteOffset == at % 64
  }

  lemma {:induction false} ShiftedTwice(o: Bytes32, a: nat, b: nat)
    ensures Shifted(Shifted(o, a), b) == Shifted(o, a + b)
  {}

  /** A step that ends the parsing. */
  lemma {:induction false} StopsHere(p: Parser, o: Bytes32, at: nat)
    requires AtPlace(p, o, at) && (at >= 32 || at >= p.optionsSize || o[at] == 0 || o[at] == 3)
    ensures !Step(p).parsing
  {
    if at < 32 { assert at % 64 == at; }
    assert p.meta.options[0] == ByteAt(o, at);
  }

  /** A step past one option. */
  lemma {:induction false} StepsOver(p: Parser, o: Bytes32, at: nat, n: nat)
    requires AtPlace(p, o, at) && at < 32 && at < p.optionsSize && o[at] != 0 && o[at] != 3
    requires n == if o[at] == 1 then 1 else ByteAt(o, at + 1)
    ensures AtPlace(Step(p), o, at + n) && Step(p).optionsSize == p.optionsSize
  {
    ShiftedAt(o, at, 0);
    ShiftedAt(o, at, 1);
    ShiftedTwice(o, at, n);
    assert OptionLength(p.meta.options) == n;
  }

  lemma {:induction false} StepThen(p: Parser, q: Parser, m: nat)
    requires q == Step(p)
    ensures Steps(p, m + 1) == Steps(q, m)
  {}

  lemma {:induction false} EndsWithin(p: Parser, o: Bytes32, at: nat) returns (n: nat)
    requires AtPlace(p, o, at) && WalkEnds(o, p.optionsSize, at)
    ensures 0 < n <= (if at >= 32 then 1 else 33 - at) && !Steps(p, n).parsing
    decreases 32 - at
  {
    var q := Step(p);
    if at >= 32 || at >= p.optionsSize || o[at] == 0 || o[at] == 3 {
      n := 1;
      assert !q.parsing by { StopsHere(p, o, at); }
      StepThen(p, q, 0);
    } else {
      var length := if o[at] == 1 then 1 else ByteAt(o, at + 1);
      assert AtPlace(q, o, at + length) && q.optionsSize == p.optionsSize by { StepsOver(p, o, at, length); }
      var m := EndsWithin(q, o, at + length);
      n := m + 1;
      StepThen(p, q, m);
    }
  }

  lemma {:induction false} NeverEnds(p: Parser, o: Bytes32, at: nat, n: nat)
    requires AtPlace(p, o, at) && !WalkEnds(o, p.optionsSize, at)
    ensures Steps(p, n).parsing
    decreases n
  {
    var length := if o[at] == 1 then 1 else ByteAt(o, at + 1);
    if length == 0 {
      ShiftedAt(o, at, 0);
      ShiftedAt(o, at, 1);
      ZeroLengthStalls(p, n);
    } else if n > 0 {
      StepsOver(p, o, at, length);
      NeverEnds(Step(p), o, at + length, n - 1);
    }
  }

  /** For any option bytes whatever: the parsing of a SYN ends, and then within 33 steps, exactly when the walk over its options ends. */
  lemma {:induction false} EndsExactly(p: Parser)
    requires !p.parsing && p.metaIn != [] && p.metaIn[0].syn && p.metaIn[0].tcpOffset > 5
    ensures WalkEnds(p.metaIn[0].options, (p.metaIn[0].tcpOffset - 5) * 4, 0)
            <==> exists n: nat {:trigger Steps(p, n)} :: 0 < n && !Steps(p, n).parsing
    ensures WalkEnds(p.metaIn[0].options, (p.metaIn[0].tcpOffset - 5) * 4, 0)
            ==> exists n: nat {:trigger Steps(p, n)} :: 0 < n <= 34 && !Steps(p, n).parsing
  {
    var o, q := p.metaIn[0].options, Step(p);
    assert Shifted(o, 0) == o;
    if WalkEnds(o, q.optionsSize, 0) {
      var m := EndsWithin(q, o, 0);
      assert Steps(p, m + 1) == Steps(q, m);
    } else {
      forall n: nat | 0 < n ensures Steps(p, n).parsing {
        NeverEnds(q, o, 0, n - 1);
        assert Steps(p, n) == Steps(q, n - 1);
      }
    }
  }

  // ----- the process -----

  class RxParseTcpOptions {
    var parsing: bool
    var metaInfo: MetaInfo
    var byteOffset: nat
    var optionsSize: nat
    var metaIn: seq<MetaInfo>
    var metaOut: seq<MetaInfo>

    constructor (first: MetaInfo)
    {
      parsing, metaInfo, byteOffset, optionsSize, metaIn, metaOut := false, first, 0, 0, [], [];
    }

    function View(): Parser
      reads this
    {
      Parser(parsing, metaInfo, byteOffset, optionsSize, metaIn, metaOut)
    }

    method ReadInfo()
      requires !parsing
      modifies this
      ensures View() == Step(old(View()))
    {
      if metaIn != [] {
        metaInfo, metaIn := metaIn[0], metaIn[1..];
        if metaInfo.tcpOffset > 5 && metaInfo.syn {
          byteOffset := 0;
          optionsSize := (metaInfo.tcpOffset - 5) * 4;
          parsing := true;
        } else {
          metaOut := metaOut + [metaInfo];
        }
      }
    }

    /** The Window Scale option, if its length is right. */
    method ReadScale()
      requires metaInfo.options[0] == 3
      modifies `metaInfo
      ensures metaInfo == Scaled(old(metaInfo))
    {
      if metaInfo.options[1] == 3 {
        var windowScale: Bits4 := metaInfo.options[2] % 16;
        if windowScale > WINDOW_SCALE_BITS {
          windowScale := WINDOW_SCALE_BITS;
        }
        metaInfo := metaInfo.(scale := windowScale);
      }
    }

    method Advance(optionLength: Byte)
      modifies `metaInfo, `byteOffset
      ensures metaInfo == old(metaInfo).(options := Shifted(old(metaInfo).options, optionLength))
      ensures byteOffset == (old(byteOffset) + optionLength) % 64
    {
      metaInfo := metaInfo.(options := Shifted(metaInfo.options, optionLength));
      byteOffset := (byteOffset + optionLength) % 64;
    }

    /** The option at the front of the register: whether it ends the parsing. */
    method TakeOption() returns (sendMeta: bool)
      requires parsing && optionsSize > byteOffset
      modifies `metaInfo, `byteOffset
      ensures sendMeta == (old(metaInfo).options[0] == 0 || old(metaInfo).options[0] == 3)
      ensures metaInfo == Scaled(old(metaInfo)).(options := Shifted(old(metaInfo).options, OptionLength(old(metaInfo).options)))
      ensures byteOffset == (old(byteOffset) + OptionLength(old(metaInfo).options)) % 64
    {
      sendMeta := false;
      var options := metaInfo.options;
      var optionLength := options[1];
      if options[0] == 0 {
        sendMeta := true;
      } else if options[0] == 1 {
        optionLength := 1;
      } else if options[0] == 3 {
        sendMeta := true;
        ReadScale();
      }
      Advance(optionLength);
    }

    method ParseData()
      requires parsing
      modifies this
      ensures View() == Step(old(View()))
    {
      var sendMeta := true;
      if optionsSize > byteOffset {
        sendMeta := TakeOption();
      }
      if sendMeta {
        metaOut := metaOut + [metaInfo];
        parsing := false;
      }
    }
  }
}
