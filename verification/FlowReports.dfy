/** What the flow tells the layer above about each packet, and which acknowledgments it counts. */
module FlowReports {
  import opened Words
  import opened FlowSpec
  import opened FlowInvariant
  import FE = FlowEvents

  // ---------- one record, a range of records ----------

  lemma SettleEffect<U, P>(e: End<U, P>, h: Upper<U, P>, n: int, why: Cause)
    requires Core(e.fl)
    ensures Settle(e, h, n, why).fl.hist.notes
         == if PipeAt(e.fl.tx, n) then e.fl.hist.notes + [SettleNote(n, why)] else e.fl.hist.notes
    ensures forall k :: PipeAt(e.fl.tx, k) && k != n ==> PipeAt(Settle(e, h, n, why).fl.tx, k)
  {
    hide Core, Records, Serve;
    if PipeAt(e.fl.tx, n) {
      SettledCore(e.fl, n, why);
      SettleIs(e, h, n, why);
      ServeCore(Settled(e.fl, n, why), h.size, h.note(e.up, SettleNote(n, why), e.fl.tx.txseq).1);
    }
  }

  /** Every packet of the range that was in flight is reported, and no other leaves the pipe. */
  lemma {:induction false} SettleRangeReports<U, P>(e: End<U, P>, h: Upper<U, P>, n: int, lim: int, why: Cause)
    requires Core(e.fl) && CcOk(e.fl) && lim <= e.fl.tx.txseq
    ensures e.fl.hist.notes <= SettleRange(e, h, n, lim, why).fl.hist.notes
    ensures forall k :: n <= k < lim && PipeAt(e.fl.tx, k) ==> SettleNote(k, why) in SettleRange(e, h, n, lim, why).fl.hist.notes
    ensures forall k :: !(n <= k < lim) && PipeAt(e.fl.tx, k) ==> PipeAt(SettleRange(e, h, n, lim, why).fl.tx, k)
    decreases lim - n
  {
    hide Core, CcOk, Settle, PipeAt, Steady;
    if n < lim {
      var e1 := Settle(e, h, n, why);
      SettleEffect(e, h, n, why);
      SettleCore(e, h, n, why);
      SteadyFacts(e.fl, e1.fl);
      SettleRangeReports(e1, h, n + 1, lim, why);
      if PipeAt(e.fl.tx, n) { PrefixHas(e1.fl.hist.notes, SettleRange(e, h, n, lim, why).fl.hist.notes, SettleNote(n, why)); }
    }
  }

  lemma PrefixHas<T>(s: seq<T>, t: seq<T>, x: T)
    requires s <= t && x in s
    ensures x in t
  {
    var i :| 0 <= i < |s| && s[i] == x;
    assert t[i] == x;
  }

  lemma ExpireTurnNotes<U, P>(e: End<U, P>, h: Upper<U, P>, n: int)
    requires e.fl.tx.txevts != [] && Core(Popped(e.fl, n))
    ensures Notify(e.(fl := PopHead(e.fl)), h, Expired(n)).fl.hist.notes == e.fl.hist.notes + [Expired(n)]
  {
    hide Core, Serve;
    NotifyCore(e.(fl := PopHead(e.fl)), h, Expired(n));
  }

  lemma {:induction false} ExpireNotes<U, P>(e: End<U, P>, h: Upper<U, P>, n: int, lim: int)
    requires Core(e.fl) && CcOk(e.fl) && n == e.fl.tx.txevtseq && lim <= e.fl.tx.txackseq + 1
    requires lim <= e.fl.tx.txseq && forall k :: k < lim ==> !PipeAt(e.fl.tx, k)
    ensures e.fl.hist.notes <= ExpireRange(e, h, n, lim).fl.hist.notes
    decreases lim - n
  {
    hide Core, CcOk, Notify, PipeAt;
    if n < lim {
      ExpireStepCore(e, h, n);
      PoppedCore(e.fl);
      ExpireTurnNotes(e, h, n);
      ExpireNotes(Notify(e.(fl := PopHead(e.fl)), h, Expired(n)), h, n + 1, lim);
    }
  }

  // ---------- an acknowledgment beyond txackseq ----------

  lemma ResettleReports<U, P>(e: End<U, P>, h: Upper<U, P>, a: nat, ackdiff: nat, newct: nat, rxseq: int, n: int)
    requires Core(e.fl) && CcOk(e.fl) && Window(e.fl.tx) && PipeAt(e.fl.tx, n)
    requires 0 < ackdiff && newct <= MASK_BITS && newct <= ackdiff
    requires a == e.fl.tx.txackseq + ackdiff < e.fl.tx.txseq
    ensures a - newct < n <= a ==> Acked(n, rxseq) in Resettle(e, h, a, ackdiff, newct, rxseq).fl.hist.notes
    ensures n <= a - newct && n <= a - MISS_THRESH ==> Missed(n) in Resettle(e, h, a, ackdiff, newct, rxseq).fl.hist.notes
  {
    hide Core, CcOk, PipeAt, RollAck, SettleRange, Progress, Calm, Steady;
    RollAckCore(e.fl, ackdiff, newct);
    var e1 := e.(fl := RollAck(e.fl, a, ackdiff, newct));
    SettleRangeReports(e1, h, a - newct + 1, a + 1, ByAck(rxseq));
    AckLoopCore(e1, h, a, ackdiff, newct, rxseq);
    var e2 := SettleRange(e1, h, a - newct + 1, a + 1, ByAck(rxseq));
    SteadyFacts(e1.fl, e2.fl);
    SettleRangeReports(e2, h, LossLow(a, ackdiff), LossHigh(a, newct) + 1, ByLoss);
    PipeFromZero(e.fl.tx, n);
  }

  lemma PipeFromZero(t: Tx, n: int)
    requires PipeAt(t, n)
    ensures n >= 0
  {
  }

  /** An acknowledgment that advances txackseq reports each packet it newly acknowledges, and each
      packet it leaves at least MISS_THRESH behind, if that packet was still in flight. */
  lemma AdvanceReports<U, P>(e: End<U, P>, h: Upper<U, P>, a: nat, ackdiff: nat, ackct: nat, rxseq: int, n: int)
    requires Good(e.fl) && PipeAt(e.fl.tx, n)
    requires 0 < ackdiff && ackct <= ACKCT_MAX && a == e.fl.tx.txackseq + ackdiff < e.fl.tx.txseq
    ensures a - NewCount(ackdiff, ackct) < n <= a ==> Acked(n, rxseq) in Advance(e, h, a, ackdiff, ackct, rxseq).fl.hist.notes
    ensures n <= a - NewCount(ackdiff, ackct) && n <= a - MISS_THRESH ==>
              Missed(n) in Advance(e, h, a, ackdiff, ackct, rxseq).fl.hist.notes
  {
    hide Core, CcOk, MaskOk, ExpireRange, PipeAt, Resettle, RollMask, NumRange;
    var newct := NewCount(ackdiff, ackct);
    ResettleReports(e, h, a, ackdiff, newct, rxseq, n);
    ResettleCore(e, h, a, ackdiff, newct, rxseq);
    var e3 := Resettle(e, h, a, ackdiff, newct, rxseq);
    if a > MASK_BITS { ExpireNotes(e3, h, e3.fl.tx.txevtseq, a - MASK_BITS + 1); }
  }

  /** rtxTimeout() reports every packet in flight as lost. */
  lemma TimeoutReports<U, P>(e: End<U, P>, h: Upper<U, P>, n: int)
    requires FE.Sound(e.fl) && PipeAt(e.fl.tx, n)
    ensures Missed(n) in RtxTimeout(e, h).fl.hist.notes
  {
    hide Good, RxOk, SettleRange, Core, CcOk, Serve, Extends, Steady;
    var c := e.fl.cc.(ssthresh := Max(Max(e.fl.tx.txfltcnt, 0) / 2, CWND_MIN), cwnd := CWND_MIN);
    var e1 := e.(fl := e.fl.(cc := c));
    FE.TimeoutCc(e.fl, c);
    QueueEnds(e.fl, n);
    SettleRangeReports(e1, h, e.fl.tx.txevtseq, e.fl.tx.txseq, ByTimeout);
    SettleRangeCore(e1, h, e.fl.tx.txevtseq, e.fl.tx.txseq, ByTimeout);
    ReadyNotes(SettleRange(e1, h, e.fl.tx.txevtseq, e.fl.tx.txseq, ByTimeout), h);
  }

  lemma QueueEnds<P>(f: Flow<P>, n: int)
    requires Good(f) && PipeAt(f.tx, n)
    ensures f.tx.txevtseq <= n < f.tx.txseq
  {
    CoreRecords(f);
  }

  lemma ReadyNotes<U, P>(e: End<U, P>, h: Upper<U, P>)
    requires Core(e.fl)
    ensures e.fl.hist.notes <= Notify(e, h, Ready).fl.hist.notes
  {
    hide Serve;
    forall n { NotesAppend(e.fl.hist.notes, Ready, n); }
    assert Core(WithNote(e.fl, Ready));
    NotifyCore(e, h, Ready);
  }

  // ---------- completeness of acknowledgment counting ----------

  /** Every number of the run that the mask can show has been counted. */
  ghost predicate RunCounted<P>(f: Flow<P>, lo: int, hi: int) {
    forall n :: lo <= n <= hi && f.tx.txackseq - n < MASK_BITS ==> n in f.hist.credited
  }

  lemma BitCounted<P>(f: Flow<P>, bit: nat)
    requires Good(f) && bit < MASK_BITS && bit in f.tx.txackmask
    ensures f.tx.txackseq - bit in f.hist.credited
  {
  }

  lemma HonestLooks(t: Tx, i: nat, ackct: nat, back: nat)
    requires back + ackct <= t.txackseq
    ensures !LooksBeforeZero(t, i, ackct, back)
  {
  }

  /** Once the loop is entered it counts the rest of the run. */
  lemma {:induction false} StraggleCounts<U, P>(
      e: End<U, P>, h: Upper<U, P>, i: nat, ackct: nat, back: nat, rxseq: int, cnt: nat, n: int)
    requires Good(e.fl) && back + ackct <= e.fl.tx.txackseq
    requires e.fl.tx.txackseq - back - ackct <= n <= e.fl.tx.txackseq - back - i && e.fl.tx.txackseq - n < MASK_BITS
    ensures n in Straggle(e, h, i, ackct, back, rxseq, cnt).0.fl.hist.credited
    decreases ackct + 1 - i
  {
    hide Good, Settle, Progress;
    var bit := back + i;
    var e1 := if bit in e.fl.tx.txackmask then e else StraggleTurn(e, h, bit, rxseq);
    if bit in e.fl.tx.txackmask {
      BitCounted(e.fl, bit);
    } else {
      StraggleStep(e, h, bit, rxseq);
    }
    HonestLooks(e1.fl.tx, i + 1, ackct, back);
    StraggleCore(e1, h, i + 1, ackct, back, rxseq, if bit in e.fl.tx.txackmask then cnt else cnt + 1);
    ProgressCredits(e1.fl, Straggle(e, h, i, ackct, back, rxseq, cnt).0.fl);
    if n == e.fl.tx.txackseq - bit {
      PrefixHas(e1.fl.hist.credited, Straggle(e, h, i, ackct, back, rxseq, cnt).0.fl.hist.credited, n);
    } else {
      StraggleCounts(e1, h, i + 1, ackct, back, rxseq, if bit in e.fl.tx.txackmask then cnt else cnt + 1, n);
    }
  }

  lemma ProgressCredits<P>(f: Flow<P>, g: Flow<P>)
    requires Progress(f, g)
    ensures f.hist.credited <= g.hist.credited
  {
  }

  /** The straggler code counts the whole acknowledged run exactly when its guard lets it in, or
      nothing was missing: the guard looks at the ackct low bits of the mask, whatever the run. */
  lemma StragglersExact<U, P>(e: End<U, P>, h: Upper<U, P>, ackct: nat, back: nat, rxseq: int, cnt: nat)
    requires Good(e.fl) && back + ackct <= e.fl.tx.txackseq && ackct <= ACKCT_MAX
    ensures RunCounted(Stragglers(e, h, ackct, back, rxseq, cnt).0.fl, e.fl.tx.txackseq - back - ackct, e.fl.tx.txackseq - back)
       <==> HasStragglers(e.fl.tx, ackct) || RunCounted(e.fl, e.fl.tx.txackseq - back - ackct, e.fl.tx.txackseq - back)
  {
    hide Good, Straggle, Progress;
    if HasStragglers(e.fl.tx, ackct) {
      HonestLooks(e.fl.tx, 0, ackct, back);
      StraggleCore(e, h, 0, ackct, back, rxseq, cnt);
      var f' := Stragglers(e, h, ackct, back, rxseq, cnt).0.fl;
      forall n | e.fl.tx.txackseq - back - ackct <= n <= e.fl.tx.txackseq - back && f'.tx.txackseq - n < MASK_BITS
        ensures n in f'.hist.credited
      {
        StraggleCounts(e, h, 0, ackct, back, rxseq, cnt, n);
      }
    }
  }

  /** A late acknowledgment of a single packet is never counted. */
  lemma LateSingleAckSkipped<U, P>(e: End<U, P>, h: Upper<U, P>, word: nat, rxseq: int)
    requires AckCount(word) == 0 && SeqDiff(word, e.fl.tx.txackseq) <= 0
    ensures TakeAcks(e, h, word, rxseq) == (e, 0)
  {
    hide SeqDiff, Straggle;
  }

  /** Packets 1 and 2 were sent and 2 alone acknowledged: a good flow, in which the late acknowledgment
      of packet 1 changes nothing. */
  lemma LateAckWitness<U, P>(u: U, h: Upper<U, P>, p: P, size: nat, rxseq: int, f: Flow<P>, e: End<U, P>)
    requires f == TxPacket(TxPacket(InitFlow(), 0, Data(p), size), 0, Data(p), size)
    requires e == Advance(End(f, u), h, 2, 2, 0, rxseq)
    ensures Good(e.fl) && IsData(f, 1) && 1 !in e.fl.hist.credited
    ensures TakeAcks(e, h, 1, rxseq) == (e, 0)
  {
    hide Good, Advance, TakeAcks, SeqDiff, TxPacket, RollMask, NumRange, Progress, IsData;
    TwoSentGood<P>(p, size);
    TwoSent<P>(p, size);
    AdvanceCore(End(f, u), h, 2, 2, 0, rxseq);
    assert e.fl.hist.credited == [0] + NumRange(2, 3);
    SeqDiffMeaning(1, 2);
    LateSingleAckSkipped(e, h, 1, rxseq);
  }

  lemma TwoSentGood<P>(p: P, size: nat)
    ensures Good(TxPacket(TxPacket(InitFlow(), 0, Data(p), size), 0, Data(p), size))
  {
    hide Good, TxPacket, RxOk;
    FE.InitSound<P>();
    FE.TxPacketGood(InitFlow<P>(), 0, Data(p), size);
    FE.TxPacketGood(TxPacket(InitFlow(), 0, Data(p), size), 0, Data(p), size);
  }

  lemma TwoSent<P>(p: P, size: nat)
    ensures TxPacket(TxPacket(InitFlow(), 0, Data(p), size), 0, Data(p), size).tx.txseq == 3
    ensures TxPacket(TxPacket(InitFlow(), 0, Data(p), size), 0, Data(p), size).tx.txackseq == 0
    ensures TxPacket(TxPacket(InitFlow(), 0, Data(p), size), 0, Data(p), size).hist.credited == [0]
    ensures IsData(TxPacket(TxPacket(InitFlow(), 0, Data(p), size), 0, Data(p), size), 1)
  {
  }

  // ---------- the congestion window ----------

  /** Growth: only when the window was the limit, by at most one per packet newly counted (never past
      ssthresh) and one per round trip; a round trip clears the limit mark. */
  lemma GrowthLaw<P>(f: Flow<P>, newpackets: nat, ackseq: int)
    requires CwndOk(f.cc)
    ensures f.cc.cwnd <= GrowWindow(f, newpackets, ackseq).cc.cwnd <= f.cc.cwnd + newpackets + 1
    ensures GrowWindow(f, newpackets, ackseq).cc.cwnd > f.cc.cwnd ==> f.cc.cwndlim
    ensures ackseq < f.cc.markseq && GrowWindow(f, newpackets, ackseq).cc.cwnd > f.cc.cwnd ==>
              GrowWindow(f, newpackets, ackseq).cc.cwnd <= f.cc.ssthresh
    ensures f.cc.cwnd >= f.cc.ssthresh ==> GrowWindow(f, newpackets, ackseq).cc.cwnd <= f.cc.cwnd + 1
    ensures GrowWindow(f, newpackets, ackseq).cc.cwndlim <==> f.cc.cwndlim && ackseq < f.cc.markseq
  {
  }
}
