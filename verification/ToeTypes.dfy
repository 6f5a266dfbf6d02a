/** Constants, bounded integers and message types shared by the TCP offload engine modules.
    A bounded unsigned type of the hardware is a subset type of nat; wrap-around is written out
    with the functions at the end of the module. */
module ToeTypes {
  const MAX_SESSIONS: nat := 64
  const MSS: nat := 4096
  const WINDOW_SCALE_BITS: nat := 2
  const BUFFER_SIZE: nat := 0x4_0000       // 2^WINDOW_BITS, WINDOW_BITS = 18
  const SEQ_SPACE: nat := 0x1_0000_0000
  const CONGESTION_WINDOW_MAX: nat := BUFFER_SIZE - 2048

  type SessionId = i: nat | i < MAX_SESSIONS
  type Seq32 = i: nat | i < SEQ_SPACE
  type Win18 = i: nat | i < BUFFER_SIZE
  type Word16 = i: nat | i < 0x1_0000
  type Bits4 = i: nat | i < 16
  type Bits2 = i: nat | i < 4
  type Byte = i: nat | i < 256

  /** There is no LISTEN state (merged into Closed) and CLOSE_WAIT is merged into LastAck. */
  datatype SessionState =
    | Closed | SynSent | SynReceived | Established | FinWait1 | FinWait2 | Closing | TimeWait | LastAck

  datatype StateQuery =
    | ReadState(id: SessionId)
    | WriteState(id: SessionId, state: SessionState)

  datatype Option<T> = None | Some(value: T)

  /** Addresses and ports as they lie in a word: lane i holds bits 8i to 8i + 7. */
  datatype FourTuple = FourTuple(srcIp: Seq32, dstIp: Seq32, srcPort: Word16, dstPort: Word16)

  function FromBe16(a: Byte, b: Byte): Word16 { a * 256 + b }

  /** The state after a sequence of steps. */
  function RunOf<S, E>(step: (S, E) -> S, s: S, es: seq<E>): S
    decreases |es|
  {
    if es == [] then s else RunOf(step, step(s, es[0]), es[1..])
  }

  lemma {:induction false} RunOfCat<S, E>(step: (S, E) -> S, s: S, a: seq<E>, b: seq<E>)
    ensures RunOf(step, s, a + b) == RunOf(step, RunOf(step, s, a), b)
    decreases |a|
  {
    if a == [] {
      assert a + b == b;
    } else {
      RunOfCat(step, step(s, a[0]), a[1..], b);
      assert (a + b)[1..] == a[1..] + b;
    }
  }

  lemma {:induction false} RunOfOne<S, E>(step: (S, E) -> S, s: S, e: E)
    ensures RunOf(step, s, [e]) == step(s, e)
  {
    assert [e][1..] == [];
  }

  /** A stream that gets nothing, or x, gets y exactly when x is y. */
  lemma {:induction false} SnocIs<T>(s: seq<T>, x: T, y: T)
    ensures s + [x] == s + [y] <==> x == y
    ensures s != s + [y]
  {
    assert (s + [x])[|s|] == x && (s + [y])[|s|] == y;
  }

  /** Reduction to the 32-bit sequence space. */
  function Mod32(x: int): (r: Seq32)
    ensures exists k: int :: x == r + k * SEQ_SPACE
  {
    assert x == x % SEQ_SPACE + (x / SEQ_SPACE) * SEQ_SPACE;
    x % SEQ_SPACE
  }

  /** Reduction to the WINDOW_BITS-bit buffer space. */
  function Mod18(x: int): (r: Win18)
    ensures exists k: int :: x == r + k * BUFFER_SIZE
  {
    assert x == x % BUFFER_SIZE + (x / BUFFER_SIZE) * BUFFER_SIZE;
    x % BUFFER_SIZE
  }

  function Pow2(n: nat): (p: nat)
    ensures p > 0
  {
    if n == 0 then 1 else 2 * Pow2(n - 1)
  }

  lemma {:induction false} Mod18Add(x: int, k: int)
    ensures Mod18(Mod18(x) + k) == Mod18(x + k)
  {}

  lemma {:induction false} Mod32Add(x: int, k: int)
    ensures Mod32(Mod32(x) + k) == Mod32(x + k)
  {}

  lemma {:induction false} Mod18Of32(x: int)
    ensures Mod18(Mod32(x)) == Mod18(x)
  {
    var k: int := x / SEQ_SPACE;
    assert x == Mod32(x) + k * SEQ_SPACE;
    assert k * SEQ_SPACE == (k * 0x4000) * BUFFER_SIZE;
  }

  /** A difference below the buffer size survives the reduction of both operands. */
  lemma {:induction false} Mod18Diff(x: int, y: int)
    requires 0 <= x - y < BUFFER_SIZE
    ensures Mod18(Mod18(x) - Mod18(y)) == x - y
  {}

  lemma {:induction false} Mod32Diff(x: int, y: int)
    requires 0 <= x - y < SEQ_SPACE
    ensures Mod32(Mod32(x) - Mod32(y)) == x - y
  {}
}
