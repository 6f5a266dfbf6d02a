/** The receive window table (rx_sar_table) and the application's read pointer (rx_app_stream_if), as classes over their
    arrays and streams, with one function per table entry. */
module RxTables {
  import opened ToeTypes
  import opened TcpFsm

  datatype AppdReq = ReadAppd | WriteAppd(appd: Win18)

  /** What the TX engine is told: acknowledgement number, window field, shift. */
  datatype RxWindowReply = RxWindowReply(recvd: Seq32, windowSize: Word16, rxWinShift: Bits4)

  function WindowReply(e: RxSarEntry): RxWindowReply {
    RxWindowReply(e.recvd, FreeSpace(e) / Pow2(e.rxWinShift) % 0x1_0000, e.rxWinShift)
  }

  function AfterApp(e: RxSarEntry, q: AppdReq): RxSarEntry { if q.WriteAppd? then e.(appd := q.appd) else e }

  function AfterRx(e: RxSarEntry, q: RxSarReq): RxSarEntry {
    match q
    case ReadRecvd(_) => e
    case WriteRecvd(_, recvd) => e.(recvd := recvd)
    case InitRecvd(_, recvd, shift) => RxSarEntry(recvd, Mod18(recvd), shift)
  }

  class RxSarTable {
    const table: array<RxSarEntry>
    var txReq: seq<SessionId>
    var appReq: seq<(SessionId, AppdReq)>
    var rxReq: seq<RxSarReq>
    var txRsp: seq<RxWindowReply>
    var appRsp: seq<(SessionId, Win18)>
    var rxRsp: seq<RxSarEntry>

    constructor ()
      ensures Valid() && fresh(table) && txReq == [] && appReq == [] && rxReq == []
    {
      table := new RxSarEntry[MAX_SESSIONS](_ => RxSarEntry(0, 0, 0));
      txReq, appReq, rxReq, txRsp, appRsp, rxRsp := [], [], [], [], [], [];
    }

    ghost predicate Valid() reads this { table.Length == MAX_SESSIONS }

    method FromTx()
      requires Valid() && txReq != []
      modifies `txReq, `txRsp
      ensures txReq == old(txReq)[1..] && txRsp == old(txRsp) + [WindowReply(table[old(txReq[0])])]
    {
      var e := table[txReq[0]];
      txReq := txReq[1..];
      var realWindowSize := Mod18(e.appd - Mod18(e.recvd) - 1);
      txRsp := txRsp + [RxWindowReply(e.recvd, realWindowSize / Pow2(e.rxWinShift) % 0x1_0000, e.rxWinShift)];
    }

    method FromApp()
      requires Valid() && appReq != []
      modifies table, `appReq, `appRsp
      ensures var (id, q) := old(appReq[0]);
              && appReq == old(appReq)[1..]
              && table[..] == old(table[..])[id := AfterApp(old(table[id]), q)]
              && appRsp == old(appRsp) + (if q.ReadAppd? then [(id, old(table[id]).appd)] else [])
    {
      var (id, q) := appReq[0];
      appReq := appReq[1..];
      match q
      case WriteAppd(appd) => table[id] := table[id].(appd := appd);
      case ReadAppd => appRsp := appRsp + [(id, table[id].appd)];
    }

    method FromRx()
      requires Valid() && rxReq != []
      modifies table, `rxReq, `rxRsp
      ensures var q := old(rxReq[0]);
              && rxReq == old(rxReq)[1..]
              && table[..] == old(table[..])[q.id := AfterRx(old(table[q.id]), q)]
              && rxRsp == old(rxRsp) + (if q.ReadRecvd? then [old(table[q.id])] else [])
    {
      var q := rxReq[0];
      rxReq := rxReq[1..];
      match q
      case ReadRecvd(id) => rxRsp := rxRsp + [table[id]];
      case WriteRecvd(id, recvd) => table[id] := table[id].(recvd := recvd);
      case InitRecvd(id, recvd, shift) =>
        table[id] := table[id].(recvd := recvd);
        table[id] := table[id].(rxWinShift := shift, appd := Mod18(recvd));
    }

    /** One request per step: TX engine, then application, then RX engine. */
    method Step()
      requires Valid()
      modifies this, table
      ensures old(txReq) != [] ==>
                && table[..] == old(table[..]) && txReq == old(txReq)[1..] && appReq == old(appReq) && rxReq == old(rxReq)
                && txRsp == old(txRsp) + [WindowReply(old(table[txReq[0]]))] && appRsp == old(appRsp) && rxRsp == old(rxRsp)
      ensures old(txReq) == [] && old(appReq) != [] ==>
                var (id, q) := old(appReq[0]);
                && table[..] == old(table[..])[id := AfterApp(old(table[id]), q)]
                && txReq == [] && appReq == old(appReq)[1..] && rxReq == old(rxReq)
                && appRsp == old(appRsp) + (if q.ReadAppd? then [(id, old(table[id]).appd)] else [])
                && txRsp == old(txRsp) && rxRsp == old(rxRsp)
      ensures old(txReq) == [] && old(appReq) == [] && old(rxReq) != [] ==>
                var q := old(rxReq[0]);
                && table[..] == old(table[..])[q.id := AfterRx(old(table[q.id]), q)]
                && txReq == [] && appReq == [] && rxReq == old(rxReq)[1..]
                && rxRsp == old(rxRsp) + (if q.ReadRecvd? then [old(table[q.id])] else [])
                && txRsp == old(txRsp) && appRsp == old(appRsp)
      ensures old(txReq) == [] && old(appReq) == [] && old(rxReq) == [] ==>
                && table[..] == old(table[..]) && txReq == [] && appReq == [] && rxReq == []
                && txRsp == old(txRsp) && appRsp == old(appRsp) && rxRsp == old(rxRsp)
    {
      if txReq != [] {
        FromTx();
      } else if appReq != [] {
        FromApp();
      } else if rxReq != [] {
        FromRx();
      }
    }
  }

  class RxAppStreamIf {
    var busy: bool
    var readLength: Word16
    var readReq: seq<(SessionId, Word16)>
    var sarRsp: seq<(SessionId, Win18)>
    var rspId: seq<SessionId>
    var sarReq: seq<(SessionId, AppdReq)>

    method Step()
      modifies this
      ensures !old(busy) && old(readReq) != [] && old(readReq[0]).1 != 0 ==>
                busy && readLength == old(readReq[0]).1 && readReq == old(readReq)[1..]
                && sarReq == old(sarReq) + [(old(readReq[0]).0, ReadAppd)]
      ensures !old(busy) && old(readReq) != [] && old(readReq[0]).1 == 0 ==>
                !busy && readReq == old(readReq)[1..] && sarReq == old(sarReq)
      ensures !old(busy) && old(readReq) == [] ==> !busy && sarReq == old(sarReq)
      ensures old(busy) && old(sarRsp) != [] ==>
                var (id, appd) := old(sarRsp[0]);
                !busy && sarRsp == old(sarRsp)[1..] && rspId == old(rspId) + [id]
                && sarReq == old(sarReq) + [(id, WriteAppd(Mod18(appd + old(readLength))))]
      ensures old(busy) && old(sarRsp) == [] ==> busy && sarReq == old(sarReq) && readLength == old(readLength)
    {
      if !busy {
        if readReq != [] {
          var (id, length) := readReq[0];
          readReq := readReq[1..];
          if length != 0 {
            sarReq := sarReq + [(id, ReadAppd)];
            readLength := length;
            busy := true;
          }
        }
      } else if sarRsp != [] {
        var (id, appd) := sarRsp[0];
        sarRsp := sarRsp[1..];
        rspId := rspId + [id];
        sarReq := sarReq + [(id, WriteAppd(Mod18(appd + readLength)))];
        busy := false;
      }
    }
  }
}
