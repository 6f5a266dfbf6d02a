/** The condition of the drop pipeline, told from the packet: the words of a segment are those rxEngGetMetaData sends. */
module DropWire {
  import opened ToeTypes
  import opened Words
  import opened TcpFsm
  import DropPipeline
  import WireRx

  /** Segment s is made of the pseudo packet p, which comes in the words ws. */
  predicate MadeOf(s: DropPipeline.Segment, ws: seq<Word>, p: seq<Byte>, offset: Bits4) {
    && Packed(ws, p) && |p| >= 32 && p[24] / 16 == offset && offset != 13
    && WireRx.ParseMeta(ws[0].lanes).tcpOffset == offset && 0 < WireRx.ByteOffset(offset)
    && s.meta.length == WireRx.MetaOf(p).length && s.payload == WireRx.PayloadWords(ws)
  }

  /** A packet without payload fits in one word, and payload that reaches the state machine is on an ACK or a FIN-ACK. */
  predicate Harmless(s: DropPipeline.Segment, p: seq<Byte>)
    requires |p| >= 32
  {
    if WireRx.MetaOf(p).length == 0 then |p| <= LANES else DropPipeline.LookedUp(s) ==> IsAck(s.meta) || IsFinAck(s.meta)
  }

  /** Every packet makes a segment of the shape supposed, and a matched one exactly when it is harmless. */
  lemma {:induction false} MatchedOnWire(s: DropPipeline.Segment, ws: seq<Word>, p: seq<Byte>, offset: Bits4)
    requires MadeOf(s, ws, p, offset)
    ensures DropPipeline.Shaped(s) && (DropPipeline.Matched(s) <==> Harmless(s, p))
  {
    WireRx.PayloadSentExactly(ws, p, offset);
  }

  /** Among well-formed segments a packet leaves each payload packet judged by its own segment, in all runs, if and only if it is
      harmless. */
  lemma {:induction false} HarmlessExactly(s: DropPipeline.Segment, ws: seq<Word>, p: seq<Byte>, offset: Bits4)
    requires MadeOf(s, ws, p, offset)
    ensures Harmless(s, p)
            <==> forall events {:trigger DropPipeline.ArrivalsOk(events, s)} ::
                   DropPipeline.ArrivalsOk(events, s) ==>
                     DropPipeline.JudgedByOwn(DropPipeline.Run(DropPipeline.INITIAL, events))
                     && DropPipeline.AllDone(DropPipeline.Run(DropPipeline.INITIAL, events))
  {
    MatchedOnWire(s, ws, p, offset);
    DropPipeline.ConditionExactly(s);
  }
}
