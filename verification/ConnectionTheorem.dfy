/** Every run of two endpoints: what the sender forgets the receiver holds, and the bytes read are
    always a prefix of the bytes written. */
module ConnectionTheorem {
  import opened Words
  import opened FlowSpec
  import opened FlowInvariant
  import FE = FlowEvents
  import opened StreamSend
  import Recv = StreamReceive
  import Messages
  import opened Connection
  import opened ConnectionInvariant
  import opened ConnectionEvents

  // ---------- acknowledging a packet ----------

  lemma BareRecords(f: Flow<Payload>, word: nat)
    requires Records(f)
    ensures Records(TxPacket(f, word, Bare, ACK_PACKET_SIZE))
    ensures forall n :: PipeAt(TxPacket(f, word, Bare, ACK_PACKET_SIZE).tx, n) <==> PipeAt(f.tx, n)
  {
    TxPacketRecords(f, word, Bare, ACK_PACKET_SIZE);
  }

  lemma BareHeaders(f: Flow<Payload>, word: nat)
    requires AckStateOk(f) && HeadersOk(f) && RunAcked(word, f.hist.acknowledged)
    ensures AckStateOk(TxPacket(f, word, Bare, ACK_PACKET_SIZE)) && HeadersOk(TxPacket(f, word, Bare, ACK_PACKET_SIZE))
  {
    hide RunAcked;
  }

  /** Sending a bare acknowledgment of a run that was acknowledged. */
  lemma BareMid(e: Node, ackseq: nat, ackct: nat, far: Story, own: Story)
    requires Mid(e, far, own) && ackct <= ACKCT_MAX && ackct <= ackseq < SEQ24
    requires forall k :: ackseq - ackct <= k <= ackseq ==> k in e.fl.hist.acknowledged
    ensures Mid(e.(fl := TransmitAck(e.fl, ackseq, ackct)), far, own)
  {
    hide Records, PipeAt, SenderOk, AckStateOk, HeadersOk, FarOk, Vouched, Messages.Faithful, PackAck, RunAcked;
    PackedRun(ackseq, ackct, e.fl.hist.acknowledged);
    BareRecords(e.fl, PackAck(ackseq, ackct));
    BareHeaders(e.fl, PackAck(ackseq, ackct));
    VouchedGrows(e.fl.hist.sent, Packet(PackAck(ackseq, ackct), Bare), far.acked, far.arrived);
  }

  lemma RxMid(e: Node, rx: Rx, far: Story, own: Story)
    requires Mid(e, far, own) && AckStateOk(e.fl.(rx := rx))
    ensures Mid(e.(fl := e.fl.(rx := rx)), far, own)
  {
    hide PipeAt, SenderOk, FarOk, Vouched, Messages.Faithful, RunAcked, AckStateOk;
  }

  lemma FlushMid(e: Node, far: Story, own: Story)
    requires Mid(e, far, own)
    ensures Mid(e.(fl := FlushAck(e.fl)), far, own)
  {
    hide SendMid, HeadersOk, FarOk, Vouched, Messages.Faithful, TransmitAck;
    RxMid(e, e.fl.rx.(rxunacked := 0), far, own);
    BareMid(e.(fl := e.fl.(rx := e.fl.rx.(rxunacked := 0))), e.fl.rx.rxackseq, e.fl.rx.rxackct, far, own);
  }

  lemma RunMonotone(word: nat, acked: set<int>, more: set<int>)
    requires RunAcked(word, acked) && acked <= more
    ensures RunAcked(word, more)
  {
  }

  lemma HeadersMonotone(f: Flow<Payload>, n: nat, sendack: bool)
    requires HeadersOk(f)
    ensures HeadersOk(FlowSpec.Noted(f, n, sendack))
  {
    hide RunAcked;
    forall m | 0 <= m < |f.hist.sent| ensures RunAcked(f.hist.sent[m].ackword, f.hist.acknowledged + {n}) {
      RunMonotone(f.hist.sent[m].ackword, f.hist.acknowledged, f.hist.acknowledged + {n});
    }
  }

  /** Packet n of the peer may be acknowledged: it was sent, and its segment, if any, arrived. */
  predicate Acceptable(e: Node, n: int, far: Story) {
    0 < n < |far.sent| && (IsSeg(far.sent[n]) ==> far.sent[n].body.payload.sg in e.up.rcv.arrived)
  }

  lemma NotedMid(e: Node, n: nat, sendack: bool, far: Story, own: Story)
    requires Mid(e, far, own) && Acceptable(e, n, far)
    ensures Mid(e.(fl := FlowSpec.Noted(e.fl, n, sendack)), far, own)
  {
    hide PipeAt, SenderOk, FarOk, Messages.Faithful, RunAcked, HeadersOk, Records;
    HeadersMonotone(e.fl, n, sendack);
    RecordsSame(e.fl, FlowSpec.Noted(e.fl, n, sendack));
  }

  lemma SmallDiff(n: nat, m: nat)
    requires n < PACKET_LIMIT && m < PACKET_LIMIT
    ensures n % WORD16 == n && Signed32(n - m) == n - m
  {
  }

  lemma AckSeqBound(e: Node, far: Story, own: Story)
    requires Mid(e, far, own)
    ensures e.fl.rx.rxackseq in e.fl.hist.acknowledged && 0 <= e.fl.rx.rxackseq < PACKET_LIMIT
  {
    assert e.fl.rx.rxackseq in e.fl.hist.acknowledged;
  }

  /** acknowledge(): the run the receiver will report stays inside what it acknowledged. */
  lemma AcknowledgeMid(e: Node, n: nat, sendack: bool, far: Story, own: Story)
    requires Mid(e, far, own) && Acceptable(e, n, far) && |far.sent| <= PACKET_LIMIT
    ensures Mid(e.(fl := Acknowledge(e.fl, n, sendack)), far, own)
  {
    hide Mid, AckStateOk, FlushAck, TransmitAck, Signed32;
    AckSeqBound(e, far, own);
    SmallDiff(n, e.fl.rx.rxackseq);
    NotedMid(e, n, sendack, far, own);
    var e1 := e.(fl := FlowSpec.Noted(e.fl, n, sendack));
    MidAckState(e1, far, own);
    var f := e1.fl;
    FlushMid(e1, far, own);
    if n == f.rx.rxackseq + 1 {
      var r := f.rx.(rxackseq := n, rxackct := Min(f.rx.rxackct + 1, ACKCT_MAX), rxunacked := f.rx.rxunacked + 1);
      NextRun(e1, r);
      RxMid(e1, r, far, own);
      FlushMid(e1.(fl := f.(rx := r)), far, own);
    } else if n > f.rx.rxackseq {
      var g := FlushAck(f);
      FlushFrame(f);
      var r := g.rx.(rxackseq := n, rxackct := 0);
      OneRun(g, r);
      RxMid(e1.(fl := g), r, far, own);
      BareMid(e1.(fl := g.(rx := r)), n, 0, far, own);
    } else if n < f.rx.rxackseq {
      FlushFrame(f);
      BareMid(e1.(fl := FlushAck(f)), n, 0, far, own);
    }
  }

  lemma MidAckState(e: Node, far: Story, own: Story)
    requires Mid(e, far, own)
    ensures AckStateOk(e.fl)
  {
  }

  lemma FlushFrame(f: Flow<Payload>)
    ensures FlushAck(f).hist.acknowledged == f.hist.acknowledged
  {
  }

  lemma NextRun(e: Node, r: Rx)
    requires AckStateOk(e.fl) && e.fl.rx.rxackseq + 1 in e.fl.hist.acknowledged
    requires r.rxackseq == e.fl.rx.rxackseq + 1 < SEQ24 && r.rxackct == Min(e.fl.rx.rxackct + 1, ACKCT_MAX)
    ensures AckStateOk(e.fl.(rx := r))
  {
  }

  lemma OneRun(f: Flow<Payload>, r: Rx)
    requires r.rxackct == 0 && r.rxackseq < SEQ24 && r.rxackseq in f.hist.acknowledged
    ensures AckStateOk(f.(rx := r))
  {
  }

  // ---------- a packet from the peer ----------

  lemma ReadyKeeps(e: Node, far: Story, own: Story)
    requires Mid(e, far, own)
    ensures Mid(Notify(e, H, Ready), far, own)
  {
    hide Mid, Notify, TrueAcks;
    MidAcks(e, far, own);
    Neutral(e, WithNote(e.fl, Ready), far, own);
    NotifyKeeps(e, Ready, far, own);
  }

  lemma GrowWindowKeeps(e: Node, newpackets: nat, ackseq: int, far: Story, own: Story)
    requires Mid(e, far, own)
    ensures Mid(e.(fl := GrowWindow(e.fl, newpackets, ackseq)), far, own)
  {
    hide Mid, TrueAcks;
    MidAcks(e, far, own);
    AcksSame(e.fl, GrowWindow(e.fl, newpackets, ackseq), far.acked);
    Neutral(e, GrowWindow(e.fl, newpackets, ackseq), far, own);
  }

  /** Packet n, as the peer sent it. */
  predicate Genuine(n: int, body: Body<Payload>, far: Story) {
    0 < n < |far.sent| && far.sent[n].body == body
  }

  lemma VouchedArrival(sent: seq<Packet<Payload>>, acked: set<int>, arrived: seq<Segment>, sg: Segment)
    requires Vouched(sent, acked, arrived)
    ensures Vouched(sent, acked, arrived + [sg])
  {
  }

  lemma SegmentMid(e: Node, sg: Segment, far: Story, own: Story)
    requires Mid(e, far, own) && sg in far.cut
    ensures Mid(e.(up := e.up.(rcv := Recv.RxData(e.up.rcv, sg))), far, own)
    ensures Recv.RxData(e.up.rcv, sg).arrived == e.up.rcv.arrived + [sg]
  {
    hide Records, PipeAt, SenderOk, Vouched, Messages.Faithful, RunAcked, TrueAcks, Recv.RxData;
    Messages.RxDataFaithful(e.up.rcv, sg, far.cut, far.written);
    VouchedArrival(far.sent, e.fl.hist.acknowledged, e.up.rcv.arrived, sg);
  }

  lemma TakenMid(e: Node, n: nat, body: Body<Payload>, far: Story, own: Story)
    requires Mid(e, far, own) && Genuine(n, body, far)
    ensures Mid(e.(up := Taken(e.up, n, body).0), far, own)
    ensures Taken(e.up, n, body).1 != Ignore ==> Acceptable(e.(up := Taken(e.up, n, body).0), n, far)
  {
    hide SendMid, RecvMid, Recv.RxData, RunAcked;
    if body.Data? && body.payload.Seg? && n >= e.up.sidseq {
      SegmentMid(e, body.payload.sg, far, own);
    }
  }

  lemma Rebase(e: Node, far: Story, own: Story)
    requires Mid(e, far, own)
    ensures Mid(e, far, View(e)) && Grown(own, View(e)) && FarOk(far) && |far.sent| <= PACKET_LIMIT
  {
    hide SendMid, RecvMid, RunAcked;
  }

  lemma Regrow(e: Node, far: Story, mid: Story, own: Story)
    requires Mid(e, far, mid) && Grown(own, mid)
    ensures Mid(e, far, own) && Grown(mid, View(e))
  {
    hide SendMid, RecvMid, FarOk;
  }

  lemma AcceptableLater(e: Node, e': Node, n: int, far: Story)
    requires Acceptable(e, n, far) && Grown(View(e), View(e'))
    ensures Acceptable(e', n, far)
  {
  }

  /** Handing a packet up and acknowledging it. */
  lemma DeliverKeeps(e: Node, n: nat, body: Body<Payload>, far: Story, own: Story)
    requires Mid(e, far, own) && Genuine(n, body, far)
    ensures Mid(FlowSpec.Deliver(e, H, n, body), far, own)
  {
    hide Mid, Acceptable, Notify, Acknowledge, Taken, View, Grown, Genuine, FarOk;
    var r := Taken(e.up, n, body);
    var e0 := e.(up := r.0);
    TakenMid(e, n, body, far, own);
    Rebase(e0, far, own);
    if r.1 == AckQuietly { AcknowledgeMid(e0, n, false, far, own); }
    var e1 := if r.1 == AckQuietly then e0.(fl := Acknowledge(e0.fl, n, false)) else e0;
    if r.1 == AckSoon {
      ReadyKeeps(e0, far, View(e0));
      Regrow(Notify(e0, H, Ready), far, View(e0), own);
      AcceptableLater(e0, Notify(e0, H, Ready), n, far);
      AcknowledgeMid(Notify(e0, H, Ready), n, true, far, own);
    } else {
      ReadyKeeps(e1, far, own);
    }
  }

  /** An honest header word, read against txackseq, gives the number it was made from. */
  lemma WordReads(f: Flow<Payload>, word: nat, far: Story)
    requires RunAcked(word, far.acked) && Vouched(f.hist.sent, far.acked, far.arrived)
    requires Records(f) && f.tx.txseq <= PACKET_LIMIT
    ensures Recover(word, f.tx.txackseq) == word % SEQ24 < f.tx.txseq && AckCount(word) <= word % SEQ24
    ensures forall k :: FE.Named(word, word % SEQ24, k) ==> k in far.acked
  {
    hide IsSeg, Recover, AckCount;
    assert word % SEQ24 in far.acked;
    RecoverExact(word % SEQ24, word / SEQ24, f.tx.txackseq);
  }

  lemma MidVouched(e: Node, far: Story, own: Story)
    requires Mid(e, far, own)
    ensures Records(e.fl) && Vouched(e.fl.hist.sent, far.acked, far.arrived)
  {
  }

  lemma ProcessKeeps(e: Node, n: nat, pkt: Packet<Payload>, far: Story, own: Story)
    requires Mid(e, far, own) && Good(e.fl) && e.fl.tx.txseq <= PACKET_LIMIT
    requires Genuine(n, pkt.body, far) && RunAcked(pkt.ackword, far.acked)
    ensures Mid(Process(e, H, n, pkt), far, own)
  {
    hide Mid, Good, Genuine, RunAcked, TakeAcks, GrowWindow, FlowSpec.Deliver, Recover, AckCount, Records, Vouched,
      Notify, MayTransmit;
    MidVouched(e, far, own);
    WordReads(e.fl, pkt.ackword, far);
    TakeAcksKeeps(e, pkt.ackword, n, pkt.ackword % SEQ24, far, own);
    var r := TakeAcks(e, H, pkt.ackword, n);
    GrowWindowKeeps(r.0, r.1, pkt.ackword % SEQ24, far, own);
    var e2 := r.0.(fl := GrowWindow(r.0.fl, r.1, pkt.ackword % SEQ24));
    DeliverKeeps(e2, n, pkt.body, far, own);
    var e3 := FlowSpec.Deliver(e2, H, n, pkt.body);
    ReadyKeeps(e3, far, own);
    PerformProbe(e3, far, own);
  }

  // ---------- one endpoint, one event ----------

  /** Every packet counted as acknowledged was acknowledged by the peer. */
  ghost predicate TrueCredits(f: Flow<Payload>, acked: set<int>) {
    forall k :: k in f.hist.credited ==> k in acked
  }

  /** The invariant of an endpoint between events. */
  ghost predicate NodeOk(e: Node, far: Story, own: Story) {
    Mid(e, far, own) && FE.Sound(e.fl) && TrueCredits(e.fl, far.acked)
  }

  lemma AcceptMid(e: Node, seqdiff: int, n: nat, far: Story, own: Story)
    requires Mid(e, far, own) && -MASK_BITS < seqdiff
    ensures Mid(e.(fl := FlowSpec.Accept(e.fl, seqdiff, n)), far, own)
  {
    hide Mid, TrueAcks;
    MidAcks(e, far, own);
    AcksSame(e.fl, FlowSpec.Accept(e.fl, seqdiff, n), far.acked);
    Neutral(e, FlowSpec.Accept(e.fl, seqdiff, n), far, own);
  }

  lemma PeerPacket(far: Story, k: nat)
    requires FarOk(far) && 0 < k < |far.sent|
    ensures RunAcked(far.sent[k].ackword, far.acked) && Genuine(k, far.sent[k].body, far) && k < SEQ_LIMIT
  {
    hide RunAcked;
  }

  lemma SoundParts(f: Flow<Payload>)
    requires FE.Sound(f)
    ensures Good(f)
  {
  }

  lemma ReceiveKeeps(e: Node, k: nat, word: nat, far: Story, own: Story)
    requires NodeOk(e, far, own) && e.fl.tx.txseq <= PACKET_LIMIT && 0 < k < |far.sent|
    ensures NodeOk(Receive(e, H, Wire(word, k, far.sent[k])), far, own)
  {
    hide Mid, Good, RxOk, Genuine, RunAcked, Process, Recover, SeqDiff, AckCount, FlowSpec.Accept,
      Records, Vouched, FE.Sound, FarOk, Admissible, FE.HeaderSafe;
    Rebase(e, far, own);
    PeerPacket(far, k);
    MidVouched(e, far, own);
    WordReads(e.fl, far.sent[k].ackword, far);
    SoundParts(e.fl);
    FE.HonestSafe(e.fl, far.sent[k].ackword);
    FE.ReceiveSound(e, H, Wire(word, k, far.sent[k]));
    var seqdiff, n := SeqDiff(word, e.fl.rx.rxseq), Recover(word, e.fl.rx.rxseq);
    if Admissible(e.fl.rx, seqdiff, n) && n == k {
      AdmissibleDiff(e.fl.rx, seqdiff, n);
      SoundParts(e.fl);
      AcceptMid(e, seqdiff, n, far, own);
      FE.AcceptGood(e.fl, seqdiff, n);
      AcceptTx(e.fl, seqdiff, n);
      ProcessKeeps(e.(fl := FlowSpec.Accept(e.fl, seqdiff, n)), n, far.sent[k], far, own);
    }
  }

  lemma AdmissibleDiff(r: Rx, seqdiff: int, n: int)
    requires Admissible(r, seqdiff, n)
    ensures -MASK_BITS < seqdiff
  {
  }

  lemma AcceptTx(f: Flow<Payload>, seqdiff: int, n: nat)
    requires -MASK_BITS < seqdiff
    ensures FlowSpec.Accept(f, seqdiff, n).tx == f.tx
  {
  }

  lemma TimeoutKeeps(e: Node, far: Story, own: Story)
    requires NodeOk(e, far, own)
    ensures NodeOk(RtxTimeout(e, H), far, own)
  {
    hide Mid, TrueAcks, FE.Sound, SettleRange, Notify;
    FE.RtxTimeoutSound(e, H);
    MidAcks(e, far, own);
    var c := e.fl.cc.(ssthresh := Max(Max(e.fl.tx.txfltcnt, 0) / 2, CWND_MIN), cwnd := CWND_MIN);
    var e1 := e.(fl := e.fl.(cc := c));
    AcksSame(e.fl, e1.fl, far.acked);
    Neutral(e, e1.fl, far, own);
    SettleRangeKeeps(e1, e.fl.tx.txevtseq, e.fl.tx.txseq, ByTimeout, far, own);
    ReadyKeeps(SettleRange(e1, H, e.fl.tx.txevtseq, e.fl.tx.txseq, ByTimeout), far, own);
  }

  lemma LocalKeeps(e: Node, far: Story, own: Story)
    requires NodeOk(e, far, own)
    ensures NodeOk(Notify(e, H, Ready), far, own)
  {
    hide Mid, Good, RxOk, Notify, Extends;
    FE.NotifyReadyGood(e, H);
    FE.NotifyMarks(e, H, Ready);
    FE.RxOkSame(e.fl, Notify(e, H, Ready).fl);
    ReadyKeeps(e, far, own);
  }

  lemma AckTimerKeeps(e: Node, far: Story, own: Story)
    requires NodeOk(e, far, own)
    ensures NodeOk(AckTimeout(e), far, own)
  {
    hide Mid, Good, RxOk, FlushAck;
    FE.FlushAckGood(e.fl);
    FlushMarks(e.fl);
    FE.RxOkSame(e.fl, FlushAck(e.fl));
    FlushMid(e, far, own);
  }

  lemma FlushMarks(f: Flow<Payload>)
    ensures FE.SameMarks(f, FlushAck(f))
  {
  }

  lemma ScriptKeeps(e: Node, script: seq<seq<Act>>, far: Story, own: Story)
    requires NodeOk(e, far, own)
    ensures NodeOk(WithScript(e, script), far, own)
  {
    hide Mid, FE.Sound, TrueCredits;
    ScriptFree(e, script, far, own);
  }

  /** Any event at an endpoint keeps its invariant, and its history only grows. */
  lemma NodeStepKeeps(e: Node, peer: Node, ev: Event)
    requires NodeOk(e, View(peer), View(e)) && e.fl.tx.txseq <= PACKET_LIMIT
    ensures NodeOk(NodeStep(e, peer, ev), View(peer), View(e))
  {
    hide NodeOk, Receive, RtxTimeout, Notify, AckTimeout;
    var far, own := View(peer), View(e);
    match ev {
      case Deliver(_, k, word, script) =>
        if 0 < k < |peer.fl.hist.sent| {
          ScriptKeeps(e, script, far, own);
          ReceiveKeeps(WithScript(e, script), k, word, far, own);
        }
      case Junk(_, word) => ForgedIgnored(e, word);
      case RtxTimer(_, script) =>
        ScriptKeeps(e, script, far, own);
        TimeoutKeeps(WithScript(e, script), far, own);
      case AckTimer(_) => AckTimerKeeps(e, far, own);
      case Local(_, script) =>
        ScriptKeeps(e, script, far, own);
        LocalKeeps(WithScript(e, script), far, own);
    }
  }

  lemma ForgedIgnored(e: Node, word: nat)
    ensures Receive(e, H, Forged(word)) == e
  {
    hide Process;
  }
}
