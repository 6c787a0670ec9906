/** The flow invariant over whole events (receive, rtxTimeout, ackTimeout, outside calls), for
    every behaviour of the layer above and every packet the network delivers. */
module FlowEvents {
  import opened Words
  import opened FlowSpec
  import opened FlowInvariant

  /** The invariant of a flow between events. */
  ghost predicate Sound<P>(f: Flow<P>) {
    Good(f) && RxOk(f)
  }

  lemma InitSound<P>()
    ensures Sound(InitFlow<P>())
  {
    var f := InitFlow<P>();
    assert Flying(f.tx.txevts) == 0 && FlyingBytes(f.tx.txevts) == 0;
    assert Core(f) && CcOk(f) && Window(f.tx);
  }

  // ---------- acknowledgments in a header ----------

  lemma AckSeqNear(word: int, top: nat, lim: nat)
    requires top < lim <= SEQ_LIMIT && Recover(word, top) < lim
    ensures Recover(word, top) == top + SeqDiff(word, top) >= 0
  {
    SeqDiffMeaning(word, top);
  }

  /** The straggler loop is not entered, or stays inside the record queue. */
  predicate StragglersSafe(t: Tx, ackct: nat, back: nat)
    requires ackct <= ACKCT_MAX
  {
    HasStragglers(t, ackct) ==> !LooksBeforeZero(t, 0, ackct, back)
  }

  lemma StragglersCore<U, P>(e: End<U, P>, h: Upper<U, P>, ackct: nat, back: nat, rxseq: int, cnt: nat)
    requires Good(e.fl) && ackct <= ACKCT_MAX && StragglersSafe(e.fl.tx, ackct, back)
    ensures Good(Stragglers(e, h, ackct, back, rxseq, cnt).0.fl)
    ensures Progress(e.fl, Stragglers(e, h, ackct, back, rxseq, cnt).0.fl)
    ensures Stragglers(e, h, ackct, back, rxseq, cnt).1 - cnt
         == |Stragglers(e, h, ackct, back, rxseq, cnt).0.fl.hist.credited| - |e.fl.hist.credited|
    ensures CreditsWithin(e.fl, Stragglers(e, h, ackct, back, rxseq, cnt).0.fl,
                          e.fl.tx.txackseq - back - ackct, e.fl.tx.txackseq - back)
  {
    hide Good, Straggle, Progress, LooksBeforeZero;
    if HasStragglers(e.fl.tx, ackct) {
      StraggleCore(e, h, 0, ackct, back, rxseq, cnt);
    } else {
      ProgressRefl(e.fl);
    }
  }

  /** The acknowledgment state when the stragglers of a header come up. */
  function Rolled(t: Tx, word: nat): Tx {
    var ackdiff := SeqDiff(word, t.txackseq);
    if ackdiff > 0 then
      t.(txackseq := t.txackseq + ackdiff, txackmask := RollMask(t.txackmask, ackdiff, NewCount(ackdiff, AckCount(word))))
    else t
  }

  function Back(t: Tx, word: nat): nat {
    if SeqDiff(word, t.txackseq) > 0 then 0 else -SeqDiff(word, t.txackseq)
  }

  /** Processing the header of an accepted packet looks for no record before number 0. */
  predicate HeaderSafe<P>(f: Flow<P>, word: nat) {
    Recover(word, f.tx.txackseq) < f.tx.txseq ==> StragglersSafe(Rolled(f.tx, word), AckCount(word), Back(f.tx, word))
  }

  lemma SafeSame(t: Tx, t': Tx, ackct: nat, back: nat)
    requires ackct <= ACKCT_MAX && StragglersSafe(t, ackct, back)
    requires t'.txackseq == t.txackseq && t'.txackmask == t.txackmask
    ensures StragglersSafe(t', ackct, back)
  {
  }

  /** A header that counts no more packets than its number is safe. */
  lemma HonestSafe<P>(f: Flow<P>, word: nat)
    requires Good(f) && f.tx.txseq <= SEQ_LIMIT
    requires Recover(word, f.tx.txackseq) < f.tx.txseq ==> AckCount(word) <= Recover(word, f.tx.txackseq)
    ensures HeaderSafe(f, word)
  {
    hide Good, SeqDiff, Recover, RollMask, AckCount;
    if Recover(word, f.tx.txackseq) < f.tx.txseq { AckInWindow(f, word, Recover(word, f.tx.txackseq)); }
  }

  lemma TakeAcksCore<U, P>(e: End<U, P>, h: Upper<U, P>, word: nat, rxseq: int, ackseq: nat)
    requires Good(e.fl) && e.fl.tx.txseq <= SEQ_LIMIT
    requires ackseq == Recover(word, e.fl.tx.txackseq) < e.fl.tx.txseq
    requires HeaderSafe(e.fl, word)
    ensures Good(TakeAcks(e, h, word, rxseq).0.fl)
    ensures Progress(e.fl, TakeAcks(e, h, word, rxseq).0.fl)
    ensures TakeAcks(e, h, word, rxseq).1
         == |TakeAcks(e, h, word, rxseq).0.fl.hist.credited| - |e.fl.hist.credited|
    ensures CreditsWithin(e.fl, TakeAcks(e, h, word, rxseq).0.fl, ackseq - AckCount(word), ackseq)
  {
    hide Good, Advance, Straggle, SeqDiff, Stragglers, Recover, Progress, NumRange, AckCount, RollMask, StragglersSafe;
    AckInWindow(e.fl, word, ackseq);
    var ackct, ackdiff := AckCount(word), SeqDiff(word, e.fl.tx.txackseq);
    if ackdiff > 0 {
      AdvanceCore(e, h, ackseq, ackdiff, ackct, rxseq);
      var e1 := Advance(e, h, ackseq, ackdiff, ackct, rxseq);
      SafeSame(Rolled(e.fl.tx, word), e1.fl.tx, ackct, 0);
      StragglersCore(e1, h, ackct, 0, rxseq, NewCount(ackdiff, ackct));
      ProgressTrans(e.fl, e1.fl, TakeAcks(e, h, word, rxseq).0.fl);
    } else {
      StragglersCore(e, h, ackct, -ackdiff, rxseq, 0);
    }
  }

  lemma AckInWindow<P>(f: Flow<P>, word: nat, ackseq: nat)
    requires Good(f) && f.tx.txseq <= SEQ_LIMIT
    requires ackseq == Recover(word, f.tx.txackseq) < f.tx.txseq
    ensures ackseq == f.tx.txackseq + SeqDiff(word, f.tx.txackseq)
    ensures AckCount(word) <= ACKCT_MAX
  {
    AckSeqNear(word, f.tx.txackseq, f.tx.txseq);
  }

  // ---------- replay protection ----------

  lemma RecordForward(r: Rx, log: seq<int>, seqdiff: int, n: nat)
    requires Reflects(r.rxmask, r.rxseq, log) && 0 < seqdiff && n == r.rxseq + seqdiff
    ensures n !in log && Record(r, seqdiff, n).rxseq == n
    ensures Reflects(Record(r, seqdiff, n).rxmask, n, log + [n])
  {
    hide Reflects, Shl, Ones;
    RollReflects(r.rxmask, r.rxseq, log, seqdiff, 1, [n]);
    assert Record(r, seqdiff, n).rxmask == RollMask(r.rxmask, seqdiff, 1);
    AboveTop(r.rxmask, r.rxseq, log, n);
  }

  lemma AboveTop(mask: Mask, top: int, log: seq<int>, n: int)
    requires Reflects(mask, top, log) && n > top
    ensures n !in log
  {
  }

  lemma RecordBack(mask: Mask, top: nat, log: seq<int>, bit: nat)
    requires Reflects(mask, top, log) && bit < MASK_BITS && bit !in mask && bit <= top
    ensures top - bit !in log
    ensures Reflects(SetBit(mask, bit), top, log + [top - bit])
  {
    forall k ensures k in log + [top - bit] <==> k in log || k == top - bit { }
  }

  /** A packet that passes admission and authentication has never been accepted before. */
  lemma RecordOk<P>(f: Flow<P>, word: nat, n: nat)
    requires RxOk(f) && n == Recover(word, f.rx.rxseq) < SEQ_LIMIT
    requires Admissible(f.rx, SeqDiff(word, f.rx.rxseq), n)
    ensures n == f.rx.rxseq + SeqDiff(word, f.rx.rxseq)
    ensures n !in f.hist.accepted
    ensures RxOk(f.(rx := Record(f.rx, SeqDiff(word, f.rx.rxseq), n),
                    hist := f.hist.(accepted := f.hist.accepted + [n])))
  {
    AckSeqNear(word, f.rx.rxseq, SEQ_LIMIT);
    hide SeqDiff, Recover, Shl;
    var seqdiff := SeqDiff(word, f.rx.rxseq);
    if seqdiff > 0 {
      RecordForward(f.rx, f.hist.accepted, seqdiff, n);
    } else {
      RecordBack(f.rx.rxmask, f.rx.rxseq, f.hist.accepted, -seqdiff);
    }
    hide Reflects;
    DistinctAppend(f.hist.accepted, [n]);
  }

  // ---------- transmissions keep a good flow good ----------

  /** The transmit side does not look at the receive side. */
  lemma GoodRx<P>(f: Flow<P>, rx: Rx, accepted: seq<int>, acknowledged: set<int>, promised: set<int>)
    requires Good(f)
    ensures Good(f.(rx := rx, hist := f.hist.(accepted := accepted, acknowledged := acknowledged, promised := promised)))
  {
    var g := f.(rx := rx, hist := f.hist.(accepted := accepted, acknowledged := acknowledged, promised := promised));
    assert Fates(f) ==> Fates(g);
  }

  lemma ExtendsGood<P>(f: Flow<P>, g: Flow<P>)
    requires Good(f) && Core(g) && Extends(f, g)
    ensures Good(g)
  {
    forall n | n <= g.tx.txackseq - MISS_THRESH ensures !PipeAt(g.tx, n) {
      assert !PipeAt(f.tx, n);
    }
  }

  lemma TxPacketGood<P>(f: Flow<P>, word: nat, body: Body<P>, size: nat)
    requires Good(f)
    ensures Good(TxPacket(f, word, body, size))
  {
    TxPacketCore(f, word, body, size);
    assert Extends(f, TxPacket(f, word, body, size));
    hide Core, CcOk, Window, MaskOk;
    ExtendsGood(f, TxPacket(f, word, body, size));
  }

  lemma GoodCore<P>(f: Flow<P>)
    requires Good(f)
    ensures Core(f)
  {
  }

  lemma ServeGood<P>(f: Flow<P>, size: P -> nat, reqs: seq<Req<P>>)
    requires Good(f)
    ensures Good(Serve(f, size, reqs)) && Extends(f, Serve(f, size, reqs))
  {
    hide Good, Core, Extends, Serve;
    GoodCore(f);
    ServeCore(f, size, reqs);
    ExtendsGood(f, Serve(f, size, reqs));
  }

  lemma ReadyNoteGood<P>(f: Flow<P>)
    requires Good(f)
    ensures Good(WithNote(f, Ready))
  {
    forall n { NotesAppend(f.hist.notes, Ready, n); }
    assert Fates(WithNote(f, Ready));
  }

  lemma NotifyReadyGood<U, P>(e: End<U, P>, h: Upper<U, P>)
    requires Good(e.fl)
    ensures Good(Notify(e, h, Ready).fl) && Extends(WithNote(e.fl, Ready), Notify(e, h, Ready).fl)
  {
    hide Good, Extends, Serve;
    ReadyNoteGood(e.fl);
    ServeGood(WithNote(e.fl, Ready), h.size, h.note(e.up, Ready, e.fl.tx.txseq).1);
  }

  lemma FlushAckGood<P>(f: Flow<P>)
    requires Good(f)
    ensures Good(FlushAck(f))
  {
    hide Good, TxPacket;
    GoodRx(f, f.rx.(rxunacked := 0), f.hist.accepted, f.hist.acknowledged, f.hist.promised);
    TxPacketGood(f.(rx := f.rx.(rxunacked := 0)), PackAck(f.rx.rxackseq, f.rx.rxackct), Bare, ACK_PACKET_SIZE);
  }

  lemma AcknowledgeGood<P>(f0: Flow<P>, pktseq: nat, sendack: bool)
    requires Good(f0)
    ensures Good(Acknowledge(f0, pktseq, sendack))
  {
    hide Good, FlushAck, TxPacket, Signed32, PackAck;
    var n := pktseq % WORD16;
    var f := Noted(f0, pktseq, sendack);
    GoodRx(f0, f0.rx, f0.hist.accepted, f.hist.acknowledged, f.hist.promised);
    FlushAckGood(f);
    var seqdiff := Signed32(n - f.rx.rxackseq);
    if seqdiff == 1 {
      var r := f.rx.(rxackseq := n, rxackct := Min(f.rx.rxackct + 1, ACKCT_MAX), rxunacked := f.rx.rxunacked + 1);
      GoodRx(f, r, f.hist.accepted, f.hist.acknowledged, f.hist.promised);
      FlushAckGood(f.(rx := r));
    } else if seqdiff > 1 {
      var g := FlushAck(f);
      var r := g.rx.(rxackseq := n, rxackct := 0);
      GoodRx(g, r, g.hist.accepted, g.hist.acknowledged, g.hist.promised);
      TxPacketGood(g.(rx := r), PackAck(n, 0), Bare, ACK_PACKET_SIZE);
    } else {
      TxPacketGood(FlushAck(f), PackAck(n, 0), Bare, ACK_PACKET_SIZE);
    }
  }

  lemma MayTransmitGood<P>(f: Flow<P>)
    requires Good(f)
    ensures Good(MayTransmit(f))
  {
    assert Fates(f) ==> Fates(MayTransmit(f));
  }

  /** Slow start, additive increase and the clamp leave cwnd between CWND_MIN and CWND_MAX. */
  lemma GrowWindowGood<P>(f: Flow<P>, newpackets: nat, ackseq: int)
    requires Good(f)
    ensures Good(GrowWindow(f, newpackets, ackseq))
  {
    assert Fates(f) ==> Fates(GrowWindow(f, newpackets, ackseq));
  }

  lemma DeliverGood<U, P>(e: End<U, P>, h: Upper<U, P>, n: nat, body: Body<P>)
    requires Good(e.fl)
    ensures Good(Deliver(e, h, n, body).fl)
  {
    hide Good, Acknowledge, Notify, Extends;
    var r := h.recv(e.up, n, body);
    AcknowledgeGood(e.fl, n, false);
    var quiet := if r.1 == AckQuietly then Acknowledge(e.fl, n, false) else e.fl;
    NotifyReadyGood(End(quiet, r.0), h);
    AcknowledgeGood(Notify(End(quiet, r.0), h, Ready).fl, n, true);
  }

  // ---------- the receive side is touched only where it should be ----------

  /** g has the same replay state as f. */
  predicate SameReplay<P>(f: Flow<P>, g: Flow<P>) {
    f.rx.rxseq == g.rx.rxseq && f.rx.rxmask == g.rx.rxmask && f.hist.accepted == g.hist.accepted
  }

  /** ... and has counted the same packets as acknowledged. */
  predicate SameMarks<P>(f: Flow<P>, g: Flow<P>) {
    SameReplay(f, g) && f.hist.credited == g.hist.credited
  }

  lemma {:induction false} ServeMarks<P>(f: Flow<P>, size: P -> nat, reqs: seq<Req<P>>)
    ensures SameMarks(f, Serve(f, size, reqs))
    decreases |reqs|
  {
    if reqs != [] {
      match reqs[0] {
        case Send(p) => ServeMarks(FlowTransmit(f, p, size(p)), size, reqs[1..]);
        case Probe => ServeMarks(MayTransmit(f), size, reqs[1..]);
      }
    }
  }

  lemma NotifyMarks<U, P>(e: End<U, P>, h: Upper<U, P>, x: Note)
    ensures SameMarks(e.fl, Notify(e, h, x).fl)
  {
    ServeMarks(WithNote(e.fl, x), h.size, h.note(e.up, x, e.fl.tx.txseq).1);
  }

  lemma AcknowledgeMarks<P>(f: Flow<P>, n: nat, sendack: bool)
    ensures SameMarks(f, Acknowledge(f, n, sendack))
  {
  }

  lemma DeliverMarks<U, P>(e: End<U, P>, h: Upper<U, P>, n: nat, body: Body<P>)
    ensures SameMarks(e.fl, Deliver(e, h, n, body).fl)
  {
    hide Notify, Acknowledge;
    var r := h.recv(e.up, n, body);
    AcknowledgeMarks(e.fl, n, false);
    var quiet := if r.1 == AckQuietly then Acknowledge(e.fl, n, false) else e.fl;
    NotifyMarks(End(quiet, r.0), h, Ready);
    AcknowledgeMarks(Notify(End(quiet, r.0), h, Ready).fl, n, true);
  }

  lemma RxOkSame<P>(f: Flow<P>, g: Flow<P>)
    requires RxOk(f) && SameReplay(f, g)
    ensures RxOk(g)
  {
  }

  // ---------- events ----------

  /** Packet k is in the run that an acknowledgment word reading as ackseq names. */
  predicate Named(ackword: nat, ackseq: int, k: int) {
    ackseq - AckCount(ackword) <= k <= ackseq
  }

  lemma ProgressReplay<P>(f: Flow<P>, g: Flow<P>)
    requires Progress(f, g)
    ensures SameReplay(f, g)
  {
  }

  lemma MoreGood<U, P>(e: End<U, P>, h: Upper<U, P>, newpackets: nat)
    requires Good(e.fl)
    ensures Good(MoreIfAllowed(e, h, newpackets).fl)
    ensures SameMarks(e.fl, MoreIfAllowed(e, h, newpackets).fl)
  {
    hide Good, Notify;
    NotifyReadyGood(e, h);
    MayTransmitGood(e.fl);
    NotifyMarks(e, h, Ready);
  }

  lemma ProcessGood<U, P>(e: End<U, P>, h: Upper<U, P>, n: nat, pkt: Packet<P>)
    requires Good(e.fl) && e.fl.tx.txseq <= SEQ_LIMIT && HeaderSafe(e.fl, pkt.ackword)
    ensures Good(Process(e, h, n, pkt).fl) && SameReplay(e.fl, Process(e, h, n, pkt).fl)
    ensures forall k :: k in Process(e, h, n, pkt).fl.hist.credited ==>
              k in e.fl.hist.credited || Named(pkt.ackword, Recover(pkt.ackword, e.fl.tx.txackseq), k)
  {
    hide Good, TakeAcks, Deliver, MoreIfAllowed, Recover, Progress, AckCount, HeaderSafe;
    var ackseq := Recover(pkt.ackword, e.fl.tx.txackseq);
    if ackseq < e.fl.tx.txseq {
      TakeAcksCore(e, h, pkt.ackword, n, ackseq);
      var r := TakeAcks(e, h, pkt.ackword, n);
      ProgressReplay(e.fl, r.0.fl);
      GrowWindowGood(r.0.fl, r.1, ackseq);
      var e2 := r.0.(fl := GrowWindow(r.0.fl, r.1, ackseq));
      DeliverGood(e2, h, n, pkt.body);
      DeliverMarks(e2, h, n, pkt.body);
      MoreGood(Deliver(e2, h, n, pkt.body), h, r.1);
    }
  }

  /** What the network may hand to receive(): anything the peer sealed under a number below
      SEQ_LIMIT with a header that is safe to process, and anything that fails authentication. */
  predicate WireOk<P>(f: Flow<P>, w: Wire<P>) {
    w.Wire? ==> w.seal < SEQ_LIMIT && HeaderSafe(f, w.pkt.ackword)
  }

  lemma AcceptGood<P>(f: Flow<P>, seqdiff: int, n: nat)
    requires Good(f) && -MASK_BITS < seqdiff
    ensures Good(Accept(f, seqdiff, n))
  {
    hide Good;
    GoodRx(f, Record(f.rx, seqdiff, n), f.hist.accepted + [n], f.hist.acknowledged, f.hist.promised);
  }

  lemma ReceiveSound<U, P>(e: End<U, P>, h: Upper<U, P>, w: Wire<P>)
    requires Sound(e.fl) && e.fl.tx.txseq <= SEQ_LIMIT && WireOk(e.fl, w)
    ensures Sound(Receive(e, h, w).fl)
    ensures w.Wire? ==> forall k :: k in Receive(e, h, w).fl.hist.credited ==>
              k in e.fl.hist.credited || Named(w.pkt.ackword, Recover(w.pkt.ackword, e.fl.tx.txackseq), k)
    ensures w.Forged? ==> Receive(e, h, w) == e
  {
    hide Good, RxOk, Process, Recover, SeqDiff, Record, SameReplay, Rolled, Back, StragglersSafe;
    var seqdiff, n := SeqDiff(w.word, e.fl.rx.rxseq), Recover(w.word, e.fl.rx.rxseq);
    if Admissible(e.fl.rx, seqdiff, n) && RxDec(n, w) {
      RecordOk(e.fl, w.word, n);
      AcceptGood(e.fl, seqdiff, n);
      ProcessGood(e.(fl := Accept(e.fl, seqdiff, n)), h, n, w.pkt);
      RxOkSame(Accept(e.fl, seqdiff, n), Receive(e, h, w).fl);
    }
  }

  lemma TimeoutCc<P>(f: Flow<P>, c: Cc)
    requires Good(f) && CwndOk(c) && c.recovseq == f.cc.recovseq
    ensures Core(f.(cc := c)) && CcOk(f.(cc := c))
  {
    assert Fates(f) ==> Fates(f.(cc := c));
  }

  lemma GoodSteady<P>(f: Flow<P>, g: Flow<P>)
    requires Good(f) && Core(g) && CcOk(g) && Steady(f, g)
    ensures Good(g) && SameMarks(f, g)
  {
    GoodCore(f);
    CoreRecords(f);
    hide Core, CcOk, Records;
    MaskOkCalm(f, g);
    WindowCalm(f, g);
  }

  lemma SteadyCc<P>(f: Flow<P>, g: Flow<P>, c: Cc)
    requires Steady(f.(cc := c), g)
    ensures Steady(f, g)
  {
  }

  lemma RtxTimeoutSound<U, P>(e: End<U, P>, h: Upper<U, P>)
    requires Sound(e.fl)
    ensures Sound(RtxTimeout(e, h).fl) && RtxTimeout(e, h).fl.hist.credited == e.fl.hist.credited
  {
    hide Good, RxOk, SettleRange, Core, CcOk, Serve, Extends, Steady;
    var c := e.fl.cc.(ssthresh := Max(Max(e.fl.tx.txfltcnt, 0) / 2, CWND_MIN), cwnd := CWND_MIN);
    var e1 := e.(fl := e.fl.(cc := c));
    TimeoutCc(e.fl, c);
    SettleRangeCore(e1, h, e.fl.tx.txevtseq, e.fl.tx.txseq, ByTimeout);
    var e2 := SettleRange(e1, h, e.fl.tx.txevtseq, e.fl.tx.txseq, ByTimeout);
    SteadyCc(e.fl, e2.fl, c);
    GoodSteady(e.fl, e2.fl);
    NotifyReadyGood(e2, h);
    NotifyMarks(e2, h, Ready);
    RxOkSame(e.fl, RtxTimeout(e, h).fl);
  }

  // ---------- every run ----------

  /** Packet numbers stay in range and arriving headers are honest, all along a run. */
  ghost predicate FairRun<U, P>(e: End<U, P>, h: Upper<U, P>, evs: seq<FlowEvent<P>>)
    decreases |evs|
  {
    evs != [] ==>
      && FairRun(e, h, evs[..|evs| - 1])
      && FlowRun(e, h, evs[..|evs| - 1]).fl.tx.txseq <= SEQ_LIMIT
      && (evs[|evs| - 1].Arrive? ==> WireOk(FlowRun(e, h, evs[..|evs| - 1]).fl, evs[|evs| - 1].w))
  }

  lemma StepSound<U, P>(e: End<U, P>, h: Upper<U, P>, ev: FlowEvent<P>)
    requires Sound(e.fl) && e.fl.tx.txseq <= SEQ_LIMIT
    requires ev.Arrive? ==> WireOk(e.fl, ev.w)
    ensures Sound(FlowStep(e, h, ev).fl)
  {
    hide Good, RxOk, Receive, RtxTimeout, WireOk, Serve;
    match ev {
      case Arrive(w) => ReceiveSound(e, h, w);
      case RtxFires => RtxTimeoutSound(e, h);
      case AckFires =>
        FlushAckGood(e.fl);
        RxOkSame(e.fl, FlushAck(e.fl));
      case UpperActs =>
        NotifyReadyGood(e, h);
        NotifyMarks(e, h, Ready);
        RxOkSame(e.fl, FlowStep(e, h, ev).fl);
    }
  }

  /** Every state a flow reaches is sound, whatever the layer above transmits in its upcalls. */
  lemma {:induction false} RunSound<U, P>(u: U, h: Upper<U, P>, evs: seq<FlowEvent<P>>)
    requires FairRun(End(InitFlow(), u), h, evs)
    ensures Sound(FlowRun(End(InitFlow(), u), h, evs).fl)
    decreases |evs|
  {
    hide Sound, FlowStep, WireOk;
    if evs == [] {
      InitSound<P>();
    } else {
      RunSound(u, h, evs[..|evs| - 1]);
      StepSound(FlowRun(End(InitFlow(), u), h, evs[..|evs| - 1]), h, evs[|evs| - 1]);
    }
  }
}
