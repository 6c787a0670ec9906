/** The flow as lib/flow.cc runs it: one object whose fields are updated in place by loops that call
    the layer above, proved against the step functions of FlowSpec. */
module FlowObject {
  import opened Words
  import opened FlowSpec
  import opened FlowInvariant
  import FE = FlowEvents

  class FlowMachine<U, P> {
    const h: Upper<U, P>
    var up: U

    // transmit state
    var txseq: nat
    var txevtseq: nat
    var txevts: seq<TxEvent>
    var txackseq: nat
    var txackmask: Mask
    var txfltcnt: int
    var txfltsize: int

    // congestion control
    var cwnd: nat
    var cwndlim: bool
    var ssthresh: nat
    var recovseq: nat
    var markseq: nat

    // receive state
    var rxseq: nat
    var rxmask: Mask
    var rxackseq: nat
    var rxackct: nat
    var rxunacked: nat

    ghost var hist: History<P>

    ghost function TxState(): Tx reads this {
      Tx(txseq, txevtseq, txevts, txackseq, txackmask, txfltcnt, txfltsize)
    }

    ghost function CcState(): Cc reads this {
      Cc(cwnd, cwndlim, ssthresh, recovseq, markseq)
    }

    ghost function RxState(): Rx reads this {
      Rx(rxseq, rxmask, rxackseq, rxackct, rxunacked)
    }

    ghost function State(): End<U, P> reads this {
      End(Flow(TxState(), CcState(), RxState(), hist), up)
    }

    /** The constructor and ccReset. */
    constructor (u: U, upper: Upper<U, P>)
      ensures h == upper && State() == End(InitFlow(), u) && FE.Sound(State().fl)
    {
      h, up := upper, u;
      txseq, txevtseq, txevts, txackseq, txackmask := 1, 0, [TxEvent(0, false, false)], 0, {0};
      txfltcnt, txfltsize := 0, 0;
      cwnd, cwndlim, ssthresh, recovseq, markseq := CWND_MIN, true, CWND_MAX, 1, 1;
      rxseq, rxmask, rxackseq, rxackct, rxunacked := 0, {0}, 0, 0, 0;
      hist := History([Packet(0, Bare)], [], [0], [], [0], {0}, {});
      new;
      FE.InitSound<P>();
    }

    // ---------- transmission ----------

    /** Record the transmission event. */
    method RecordEvent(size: nat, isdata: bool)
      modifies this`txfltcnt, this`txfltsize, this`txevts
      ensures txevts == old(txevts) + [TxEvent(size, isdata, isdata)]
      ensures txfltcnt == (if isdata then old(txfltcnt) + 1 else old(txfltcnt))
      ensures txfltsize == (if isdata then old(txfltsize) + size else old(txfltsize))
    {
      if isdata {
        txfltcnt := txfltcnt + 1;
        txfltsize := txfltsize + size;
      }
      txevts := txevts + [TxEvent(size, isdata, isdata)];
    }

    method Transmit(word: nat, body: Body<P>, size: nat)
      modifies this
      ensures State() == old(State()).(fl := TxPacket(old(State()).fl, word, body, size))
    {
      hist := hist.(sent := hist.sent + [Packet(word, body)]);
      txseq := txseq + 1;
      RecordEvent(size, body.Data?);
    }

    method TransmitBareAck(ackseq: nat, ackct: nat)
      modifies this
      ensures State() == old(State()).(fl := TransmitAck(old(State()).fl, ackseq, ackct))
    {
      Transmit(PackAck(ackseq, ackct), Bare, ACK_PACKET_SIZE);
    }

    method TransmitData(p: P)
      modifies this
      ensures State() == old(State()).(fl := FlowTransmit(old(State()).fl, p, h.size(p)))
    {
      var word := PackAck(rxackseq, rxackct);
      if rxunacked != 0 { rxunacked := 0; }
      Transmit(word, Data(p), h.size(p));
    }

    method Flush()
      modifies this
      ensures State() == old(State()).(fl := FlushAck(old(State()).fl))
    {
      if rxunacked != 0 {
        rxunacked := 0;
        TransmitBareAck(rxackseq, rxackct);
      }
    }

    /** mayTransmit: room in the window, or 0 and a note that the window is what holds us up. */
    method Room() returns (n: int)
      modifies this
      ensures State() == old(State()).(fl := MayTransmit(old(State()).fl))
      ensures n == Max(0, old(cwnd) - old(txfltcnt))
      ensures cwndlim == (old(cwndlim) || n == 0)
    {
      if cwnd > txfltcnt {
        n := cwnd - txfltcnt;
      } else {
        cwndlim := true;
        n := 0;
      }
    }

    /** A call of one of the virtual functions; the layer above may transmit before it returns. */
    method Upcall(note: Note)
      modifies this
      ensures State() == Notify(old(State()), h, note)
    {
      var r := h.note(up, note, txseq);
      hist := hist.(notes := hist.notes + [note]);
      up := r.0;
      ghost var goal := Serve(State().fl, h.size, r.1);
      var i := 0;
      while i < |r.1|
        invariant 0 <= i <= |r.1|
        invariant Serve(State().fl, h.size, r.1[i..]) == goal && up == r.0
      {
        match r.1[i] {
          case Send(p) => TransmitData(p);
          case Probe => var _ := Room();
        }
        i := i + 1;
      }
    }

    // ---------- settling records ----------

    /** ccMissed in CC_TCP mode */
    method WindowCut(n: int)
      modifies this
      ensures State() == old(State()).(fl := CcMissed(old(State()).fl, n))
    {
      if n > recovseq {
        ssthresh := Max(cwnd / 2, CWND_MIN);
        cwnd := ssthresh;
        hist := hist.(cuts := hist.cuts + [Cut(n, txseq)]);
        recovseq := txseq;
      }
    }

    /** The body of the loops over transmit records: the record exists, and leaves the pipe once. */
    method SettleOne(n: int, why: Cause)
      requires txevtseq <= n < txevtseq + |txevts|
      modifies this
      ensures State() == Settle(old(State()), h, n, why)
    {
      hide Notify, CcMissed;
      var e := txevts[n - txevtseq];
      if e.pipe {
        ghost var s := State();
        assert PipeAt(TxState(), n);
        txevts := txevts[n - txevtseq := e.(pipe := false)];
        txfltcnt := txfltcnt - 1;
        txfltsize := txfltsize - e.size;
        assert State() == s.(fl := s.fl.(tx := ClearPipe(s.fl.tx, n)));
        match why {
          case ByAck(rx) => Upcall(Acked(n, rx));
          case ByLoss =>
            WindowCut(n);
            Upcall(Missed(n));
          case ByTimeout => Upcall(Missed(n));
        }
      }
    }

    /** The loops of receive and rtxTimeout; transmissions in upcalls only append to the queue, so
        every index stays in range. */
    method SettleAll(lo: int, lim: int, why: Cause)
      requires Core(State().fl) && CcOk(State().fl) && txevtseq <= lo && lim <= txseq
      modifies this
      ensures State() == SettleRange(old(State()), h, lo, lim, why)
    {
      hide Core, CcOk, Settle, Steady;
      var n := lo;
      while n < lim
        invariant lo <= n && txevtseq <= n && lim <= txseq
        invariant Core(State().fl) && CcOk(State().fl)
        invariant SettleRange(State(), h, n, lim, why) == SettleRange(old(State()), h, lo, lim, why)
      {
        CoreQueue(State().fl);
        SettleCore(State(), h, n, why);
        SteadyQueue(State().fl, Settle(State(), h, n, why).fl);
        SettleOne(n, why);
        n := n + 1;
      }
    }

    /** Garbage collection of records that leave the acknowledgment window. */
    method ExpireUpTo(lim: int)
      requires Core(State().fl) && CcOk(State().fl) && lim <= txackseq + 1 && lim <= txseq
      requires forall k :: k < lim ==> !PipeAt(TxState(), k)
      modifies this
      ensures State() == ExpireRange(old(State()), h, old(txevtseq), lim)
    {
      hide Core, CcOk, Notify, Calm, PipeAt;
      while txevtseq < lim
        invariant Core(State().fl) && CcOk(State().fl) && lim <= txackseq + 1 && lim <= txseq
        invariant forall k :: k < lim ==> !PipeAt(TxState(), k)
        invariant ExpireRange(State(), h, txevtseq, lim) == ExpireRange(old(State()), h, old(txevtseq), lim)
        decreases lim - txevtseq
      {
        ghost var s, n := State(), txevtseq;
        ExpireStepCore(State(), h, txevtseq);
        assert !txevts[0].pipe;   // the assertion of the source
        txevts := txevts[1..];
        txevtseq := txevtseq + 1;
        assert State() == s.(fl := PopHead(s.fl));
        CalmQueue(s.fl, Notify(State(), h, Expired(n)).fl, lim);
        Upcall(Expired(txevtseq - 1));
      }
    }

    // ---------- acknowledgments ----------

    /** The roll-forward branch of receive() for an acknowledgment beyond txackseq. */
    method AdvanceTo(ackseq: nat, ackdiff: nat, ackct: nat, rx: int) returns (newpackets: nat)
      requires Good(State().fl) && 0 < ackdiff && ackct <= ACKCT_MAX
      requires ackseq == txackseq + ackdiff < txseq
      modifies this
      ensures State() == Advance(old(State()), h, ackseq, ackdiff, ackct, rx)
      ensures newpackets == NewCount(ackdiff, ackct)
    {
      hide Core, CcOk, MaskOk, SettleRange, ExpireRange, PipeAt, RollMask, NumRange, LossLow, LossHigh, Steady, Progress;
      newpackets := Min(ackdiff, ackct + 1);
      RollAckCore(State().fl, ackdiff, newpackets);
      GoodQueue(State().fl, ackdiff, newpackets);
      ResettleCore(State(), h, ackseq, ackdiff, newpackets, rx);
      txackseq := ackseq;
      txackmask := RollMask(txackmask, ackdiff, newpackets);
      hist := hist.(credited := hist.credited + NumRange(ackseq - newpackets + 1, ackseq + 1));
      ghost var rolled := State();
      assert rolled == old(State()).(fl := RollAck(old(State()).fl, ackseq, ackdiff, newpackets));
      AckLoopCore(rolled, h, ackseq, ackdiff, newpackets, rx);
      SettleAll(txackseq - newpackets + 1, txackseq + 1, ByAck(rx));
      SteadyQueue(rolled.fl, State().fl);
      SettleAll(LossLow(ackseq, ackdiff), LossHigh(ackseq, newpackets) + 1, ByLoss);
      ghost var resettled := State();
      assert resettled == Resettle(old(State()), h, ackseq, ackdiff, newpackets, rx);
      SteadyQueue(rolled.fl, resettled.fl);
      if ackseq > MASK_BITS {
        ExpireUpTo(ackseq - MASK_BITS + 1);
      }
    }

    /** One newly acknowledged packet behind txackseq. */
    method MarkAcked(bit: nat, rx: int)
      requires Good(State().fl) && bit < MASK_BITS && bit <= txackseq
      modifies this
      ensures State() == StraggleTurn(old(State()), h, bit, rx)
    {
      hide Good, Settle;
      ghost var s := State();
      WindowQueue(s.fl, bit);
      txackmask := SetBit(txackmask, bit);
      hist := hist.(credited := hist.credited + [txackseq - bit]);
      assert State() == s.(fl := Credit(s.fl, bit));
      SettleOne(txackseq - bit, ByAck(rx));
    }

    /** The straggler loop. */
    method TakeStragglers(ackct: nat, back: nat, rx: int, cnt: nat) returns (newpackets: nat)
      requires Good(State().fl) && ackct <= ACKCT_MAX && FE.StragglersSafe(TxState(), ackct, back)
      modifies this
      ensures (State(), newpackets) == Stragglers(old(State()), h, ackct, back, rx, cnt)
    {
      hide Good, Settle, Progress, Credit, LooksBeforeZero;
      newpackets := cnt;
      if txackmask * Ones(ackct) != Ones(ackct) {
        var i := 0;
        while i <= ackct && back + i < MASK_BITS
          invariant 0 <= i && Good(State().fl) && !LooksBeforeZero(TxState(), i, ackct, back)
          invariant Straggle(State(), h, i, ackct, back, rx, newpackets) == Straggle(old(State()), h, 0, ackct, back, rx, cnt)
          decreases ackct + 1 - i
        {
          var bit := back + i;
          ghost var t := TxState();
          if bit !in txackmask {
            LooksNow(t, i, ackct, back);
            StraggleStep(State(), h, bit, rx);
            MarkAcked(bit, rx);
            newpackets := newpackets + 1;
          }
          LooksLater(t, TxState(), i, ackct, back);
          i := i + 1;
        }
      }
    }

    method TakeHeader(word: nat, rx: int) returns (newpackets: nat)
      requires Good(State().fl) && txseq <= SEQ_LIMIT && FE.HeaderSafe(State().fl, word)
      requires Recover(word, txackseq) < txseq
      modifies this
      ensures (State(), newpackets) == TakeAcks(old(State()), h, word, rx)
    {
      hide Good, Advance, Stragglers, SeqDiff, Recover, AckCount, Progress, NumRange, RollMask, FE.StragglersSafe;
      ghost var rolled := FE.Rolled(TxState(), word);
      var ackct := AckCount(word);
      var ackdiff := SeqDiff(word, txackseq);
      FE.AckInWindow(State().fl, word, Recover(word, txackseq));
      newpackets := 0;
      if ackdiff > 0 {
        AdvanceCore(State(), h, txackseq + ackdiff, ackdiff, ackct, rx);
        newpackets := AdvanceTo(txackseq + ackdiff, ackdiff, ackct, rx);
        ackdiff := 0;
        FE.SafeSame(rolled, TxState(), ackct, 0);
      }
      newpackets := TakeStragglers(ackct, -ackdiff, rx, newpackets);
    }

    /** Slow start, the once-per-round-trip increase and the clamp. */
    method Grow(newpackets: nat, ackseq: int)
      modifies this
      ensures State() == old(State()).(fl := GrowWindow(old(State()).fl, newpackets, ackseq))
    {
      if newpackets > 0 && cwndlim && cwnd < ssthresh {
        cwnd := Min(cwnd + newpackets, ssthresh);
      }
      if ackseq >= markseq {
        markseq := txseq;
        if cwndlim { cwnd := cwnd + 1; }
        cwndlim := false;
      }
      cwnd := Min(cwnd, CWND_MAX);
    }

    method AckPacket(pktseq: nat, sendack: bool)
      modifies this
      ensures State() == old(State()).(fl := Acknowledge(old(State()).fl, pktseq, sendack))
    {
      hide Signed32, FlushAck, TransmitAck, AckNext, AckJump, AckOld;
      var n := pktseq % WORD16;
      hist := hist.(acknowledged := hist.acknowledged + {pktseq},
                    promised := if sendack then hist.promised + {pktseq} else hist.promised);
      var seqdiff := Signed32(n - rxackseq);
      if seqdiff == 1 {
        AckInOrder(n);
      } else if seqdiff > 1 {
        AckBeyondGap(n, sendack);
      } else if seqdiff < 0 {
        AckOutOfOrder(n, sendack);
      }
    }

    method AckInOrder(n: nat)
      modifies this
      ensures State() == old(State()).(fl := AckNext(old(State()).fl, n))
    {
      hide FlushAck;
      rxackseq := n;
      rxackct := rxackct + 1;
      if rxackct > ACKCT_MAX { rxackct := ACKCT_MAX; }
      rxunacked := rxunacked + 1;
      if rxunacked >= ACK_EVERY { Flush(); }
    }

    method AckBeyondGap(n: nat, sendack: bool)
      modifies this
      ensures State() == old(State()).(fl := AckJump(old(State()).fl, n, sendack))
    {
      hide FlushAck, TransmitAck;
      Flush();
      rxackseq := n;
      rxackct := 0;
      if sendack { TransmitBareAck(rxackseq, 0); }
    }

    method AckOutOfOrder(n: nat, sendack: bool)
      modifies this
      ensures State() == old(State()).(fl := AckOld(old(State()).fl, n, sendack))
    {
      hide FlushAck, TransmitAck;
      Flush();
      if sendack { TransmitBareAck(n, 0); }
    }

    // ---------- events ----------

    method HandUp(n: nat, body: Body<P>)
      modifies this
      ensures State() == Deliver(old(State()), h, n, body)
    {
      hide Notify, Acknowledge;
      var r := h.recv(up, n, body);
      up := r.0;
      if r.1 == AckQuietly { AckPacket(n, false); }
      Upcall(Ready);
      if r.1 == AckSoon { AckPacket(n, true); }
    }

    method ProcessPacket(n: nat, pkt: Packet<P>)
      requires Good(State().fl) && txseq <= SEQ_LIMIT && FE.HeaderSafe(State().fl, pkt.ackword)
      modifies this
      ensures State() == Process(old(State()), h, n, pkt)
    {
      hide Good, TakeAcks, GrowWindow, Deliver, Notify, Recover, AckCount, FE.HeaderSafe;
      var ackseq := Recover(pkt.ackword, txackseq);
      if ackseq < txseq {
        var newpackets := TakeHeader(pkt.ackword, n);
        Grow(newpackets, ackseq);
        HandUp(n, pkt.body);
        if newpackets > 0 {
          var room := Room();
          if room > 0 { Upcall(Ready); }
        }
      }
    }

    /** receive(): replay protection, acknowledgment processing, delivery. */
    method ReceivePacket(w: Wire<P>)
      requires FE.Sound(State().fl) && txseq <= SEQ_LIMIT && FE.WireOk(State().fl, w)
      modifies this
      ensures State() == Receive(old(State()), h, w) && FE.Sound(State().fl)
    {
      hide Good, RxOk, Process, Recover, SeqDiff, AckCount, Shl, FE.WireOk, FE.HeaderSafe;
      FE.ReceiveSound(State(), h, w);
      var seqdiff := SeqDiff(w.word, rxseq);
      var n := Recover(w.word, rxseq);
      if seqdiff > 0 {
        if n < rxseq { return; }
      } else if seqdiff <= -MASK_BITS || -seqdiff in rxmask {
        return;
      }
      if !RxDec(n, w) { return; }
      ghost var s := State();
      FE.AcceptGood(s.fl, seqdiff, n);
      SealSafe(s.fl, w, n);
      if seqdiff > 0 {
        rxseq := n;
        rxmask := if seqdiff < MASK_BITS then SetBit(Shl(rxmask, seqdiff), 0) else {0};
      } else {
        rxmask := SetBit(rxmask, -seqdiff);
      }
      hist := hist.(accepted := hist.accepted + [n]);
      assert State() == s.(fl := Accept(s.fl, seqdiff, n));
      HeaderSame(s.fl, State().fl, w.pkt.ackword);
      ProcessPacket(n, w.pkt);
    }

    /** rtxTimeout(): when nothing was transmitted meanwhile, nothing is left in flight. */
    method Timeout()
      requires FE.Sound(State().fl)
      modifies this
      ensures State() == RtxTimeout(old(State()), h) && FE.Sound(State().fl)
    {
      hide Good, RxOk, SettleRange, Notify, Core, CcOk, Steady;
      FE.RtxTimeoutSound(State(), h);
      ssthresh := Max(Max(txfltcnt, 0) / 2, CWND_MIN);
      cwnd := CWND_MIN;
      FE.TimeoutCc(old(State()).fl, CcState());
      var seqlim := txseq;
      ghost var s, lo := State(), txevtseq;
      SettleRangeCore(s, h, txevtseq, seqlim, ByTimeout);
      SettleAll(txevtseq, seqlim, ByTimeout);
      SteadyQueue(s.fl, State().fl);
      if seqlim == txseq {
        NothingFlies(State().fl, lo);
        assert txfltcnt == 0 && txfltsize == 0;   // the assertions of the source
      }
      Upcall(Ready);
    }

    method AckTimerFires()
      modifies this
      ensures State() == AckTimeout(old(State()))
    {
      Flush();
    }
  }

  // ---------- facts the loops need ----------

  lemma SealSafe<P>(f: Flow<P>, w: Wire<P>, n: int)
    requires FE.WireOk(f, w) && RxDec(n, w)
    ensures FE.HeaderSafe(f, w.pkt.ackword)
  {
  }

  lemma HeaderSame<P>(f: Flow<P>, g: Flow<P>, ackword: nat)
    requires FE.HeaderSafe(f, ackword) && g.tx == f.tx
    ensures FE.HeaderSafe(g, ackword)
  {
  }

  lemma CoreQueue<P>(f: Flow<P>)
    requires Core(f)
    ensures f.tx.txevtseq + |f.tx.txevts| == f.tx.txseq
  {
  }

  lemma SteadyQueue<P>(f: Flow<P>, g: Flow<P>)
    requires Steady(f, g)
    ensures f.tx.txevtseq == g.tx.txevtseq && f.tx.txseq <= g.tx.txseq
    ensures f.tx.txackseq == g.tx.txackseq
  {
  }

  lemma CalmQueue<P>(f: Flow<P>, g: Flow<P>, lim: int)
    requires Calm(f, g) && lim <= f.tx.txseq && forall k :: k < lim ==> !PipeAt(f.tx, k)
    ensures f.tx.txseq <= g.tx.txseq && f.tx.txackseq == g.tx.txackseq
    ensures forall k :: k < lim ==> !PipeAt(g.tx, k)
  {
  }

  /** Both settling loops of an advance start inside the record queue. */
  lemma GoodQueue<P>(f: Flow<P>, ackdiff: nat, newct: nat)
    requires Window(f.tx) && 0 < ackdiff && newct <= ackdiff
    ensures f.tx.txevtseq <= f.tx.txackseq + ackdiff - newct + 1
    ensures f.tx.txevtseq <= LossLow(f.tx.txackseq + ackdiff, ackdiff)
    ensures LossHigh(f.tx.txackseq + ackdiff, newct) <= f.tx.txackseq + ackdiff
  {
  }

  /** Every bit of the mask stands for a record. */
  lemma WindowQueue<P>(f: Flow<P>, bit: nat)
    requires Good(f) && bit < MASK_BITS && bit <= f.tx.txackseq
    ensures f.tx.txevtseq <= f.tx.txackseq - bit < f.tx.txevtseq + |f.tx.txevts|
  {
    CoreQueue(f);
    CoreRecords(f);
  }

  lemma {:induction false} NoneFlying(s: seq<TxEvent>)
    requires forall i :: 0 <= i < |s| ==> !s[i].pipe
    ensures Flying(s) == 0 && FlyingBytes(s) == 0
  {
    if s != [] { NoneFlying(s[..|s| - 1]); }
  }

  lemma NothingFlies<P>(f: Flow<P>, lo: int)
    requires Core(f) && lo == f.tx.txevtseq && forall k :: lo <= k < f.tx.txseq ==> !PipeAt(f.tx, k)
    ensures f.tx.txfltcnt == 0 && f.tx.txfltsize == 0
  {
    forall i | 0 <= i < |f.tx.txevts| ensures !f.tx.txevts[i].pipe { assert !PipeAt(f.tx, f.tx.txevtseq + i); }
    NoneFlying(f.tx.txevts);
  }
}
