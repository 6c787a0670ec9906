/** Whole events of one endpoint keep the connection invariant. */
module ConnectionEvents {
  import opened Words
  import opened FlowSpec
  import opened FlowInvariant
  import FE = FlowEvents
  import opened StreamSend
  import opened Connection
  import opened ConnectionInvariant

  // ---------- one settled record ----------

  lemma ClearedPipes(t: Tx, n: int)
    requires PipeAt(t, n)
    ensures forall k :: PipeAt(ClearPipe(t, n), k) <==> PipeAt(t, k) && k != n
  {
  }

  lemma SettledFrame(f: Flow<Payload>, n: int, why: Cause)
    requires Records(f) && PipeAt(f.tx, n)
    ensures Records(Settled(f, n, why))
    ensures forall k :: PipeAt(Settled(f, n, why).tx, k) <==> PipeAt(f.tx, k) && k != n
    ensures Settled(f, n, why).tx.txevtseq == f.tx.txevtseq
    ensures Settled(f, n, why).rx == f.rx && Settled(f, n, why).hist.sent == f.hist.sent
    ensures Settled(f, n, why).hist.acknowledged == f.hist.acknowledged
    ensures Settled(f, n, why).hist.notes == f.hist.notes + [SettleNote(n, why)]
  {
    ClearPipeRecords(f, n);
    ClearedPipes(f.tx, n);
  }

  /** The endpoint when the upcall about packet n has updated the stream. */
  function SettledNode(e: Node, n: int, why: Cause): Node
    requires PipeAt(e.fl.tx, n)
  {
    End(Settled(e.fl, n, why), Told(e.up, SettleNote(n, why)))
  }

  lemma RecvSame(e: Node, e': Node, far: Story)
    requires RecvMid(e, far) && e'.up.rcv == e.up.rcv && e'.fl.rx == e.fl.rx
    requires e'.fl.hist.sent == e.fl.hist.sent && e'.fl.hist.acknowledged == e.fl.hist.acknowledged
    ensures RecvMid(e', far)
  {
  }

  lemma AckedNode(e: Node, n: int, why: Cause, far: Story)
    requires SendMid(e, far) && PipeAt(e.fl.tx, n) && why.ByAck? && n in far.acked
    ensures SenderOk(SettledNode(e, n, why).up.snd)
    ensures Released(SettledNode(e, n, why).up.snd, far.arrived)
  {
    hide OneCopy, BytesAt, Records, PipeAt, TrueAcks, SentFromCut, SenderOk;
    var s := e.up.snd;
    if n in s.ackwait {
      AckedKeeps(s, n);
      SenderParts(s);
      var sg := s.ackwait[n].sg;
      assert sg in far.arrived;
      forall x | x in s.cut && x.tsn == sg.tsn ensures x in far.arrived {
        TileUnique(s.cut, s.written, s.endwrite, x, sg);
      }
    }
  }

  lemma MissedNode(e: Node, n: int, why: Cause, far: Story, own: Story)
    requires Mid(e, far, own) && PipeAt(e.fl.tx, n) && !why.ByAck?
    ensures SenderOk(SettledNode(e, n, why).up.snd)
    ensures Released(SettledNode(e, n, why).up.snd, far.arrived)
  {
    hide SenderOk, Records, PipeAt, RecvMid, RunAcked, Enqueue;
    MissedKeeps(e.up.snd, n);
  }

  lemma SettledTied(e: Node, n: int, why: Cause)
    requires Records(e.fl) && Tied(e) && PipeAt(e.fl.tx, n)
    ensures Tied(SettledNode(e, n, why))
  {
    hide Records, PipeAt, Settled, Enqueue;
    SettledFrame(e.fl, n, why);
  }

  lemma SettledMid(e: Node, n: int, why: Cause, far: Story, own: Story)
    requires Mid(e, far, own) && PipeAt(e.fl.tx, n) && (why.ByAck? ==> n in far.acked)
    ensures Mid(SettledNode(e, n, why), far, own)
  {
    hide Records, PipeAt, Settled, SenderOk, Tied, RecvMid, FarOk, Vouched, Released, Enqueue;
    SettledFrame(e.fl, n, why);
    SettledTied(e, n, why);
    if why.ByAck? { AckedNode(e, n, why, far); } else { MissedNode(e, n, why, far, own); }
    RecvSame(e, SettledNode(e, n, why), far);
  }

  lemma SettleKeeps(e: Node, n: int, why: Cause, far: Story, own: Story)
    requires Mid(e, far, own) && (why.ByAck? && PipeAt(e.fl.tx, n) ==> n in far.acked)
    ensures Mid(Settle(e, H, n, why), far, own)
  {
    hide Mid, Notify, PipeAt, Told, CcMissed, ClearPipe;
    if PipeAt(e.fl.tx, n) {
      SettledMid(e, n, why, far, own);
      var f := e.fl.(tx := ClearPipe(e.fl.tx, n));
      NotifyKeeps(e.(fl := if why.ByLoss? then CcMissed(f, n) else f), SettleNote(n, why), far, own);
    }
  }

  lemma {:induction false} SettleRangeKeeps(e: Node, n: int, lim: int, why: Cause, far: Story, own: Story)
    requires Mid(e, far, own) && (why.ByAck? ==> forall k :: n <= k < lim ==> k in far.acked)
    ensures Mid(SettleRange(e, H, n, lim, why), far, own)
    decreases lim - n
  {
    hide Mid, Settle;
    if n < lim {
      SettleKeeps(e, n, why, far, own);
      SettleRangeKeeps(Settle(e, H, n, why), n + 1, lim, why, far, own);
    }
  }

  // ---------- expiry ----------

  lemma PoppedFrame(f: Flow<Payload>, n: int)
    requires Records(f) && n == f.tx.txevtseq <= f.tx.txackseq && !PipeAt(f.tx, n)
    ensures f.tx.txevts != [] && Records(Popped(f, n))
    ensures forall k :: PipeAt(Popped(f, n).tx, k) <==> PipeAt(f.tx, k)
  {
    FlyingTail(f.tx.txevts);
  }

  lemma PoppedMid(e: Node, n: int, far: Story, own: Story)
    requires Mid(e, far, own) && n == e.fl.tx.txevtseq <= e.fl.tx.txackseq && !PipeAt(e.fl.tx, n)
    ensures e.fl.tx.txevts != [] && Mid(End(Popped(e.fl, n), Told(e.up, Expired(n))), far, own)
  {
    hide Records, PipeAt, SenderOk, RecvMid, FarOk, Vouched;
    PoppedFrame(e.fl, n);
    ExpireKeeps(e.up.snd, n);
    RecvSame(e, End(Popped(e.fl, n), Told(e.up, Expired(n))), far);
  }

  lemma {:induction false} ExpireRangeKeeps(e: Node, n: int, lim: int, far: Story, own: Story)
    requires Mid(e, far, own) && Core(e.fl) && CcOk(e.fl) && n == e.fl.tx.txevtseq
    requires lim <= e.fl.tx.txackseq + 1 && lim <= e.fl.tx.txseq && forall k :: k < lim ==> !PipeAt(e.fl.tx, k)
    ensures Mid(ExpireRange(e, H, n, lim), far, own)
    decreases lim - n
  {
    hide Mid, Core, CcOk, Notify, PipeAt, Told;
    if n < lim {
      PoppedMid(e, n, far, own);
      ExpireStepCore(e, H, n);
      NotifyKeeps(e.(fl := PopHead(e.fl)), Expired(n), far, own);
      ExpireRangeKeeps(Notify(e.(fl := PopHead(e.fl)), H, Expired(n)), n + 1, lim, far, own);
    }
  }

  // ---------- acknowledgments ----------

  lemma AckFieldsMid(e: Node, f: Flow<Payload>, far: Story, own: Story)
    requires Mid(e, far, own) && f.tx.txackseq < f.tx.txseq && e.fl.tx.txackseq <= f.tx.txackseq
    requires f.tx == e.fl.tx.(txackseq := f.tx.txackseq, txackmask := f.tx.txackmask)
    requires f.rx == e.fl.rx && f.hist == e.fl.hist.(credited := f.hist.credited)
    ensures Mid(e.(fl := f), far, own)
  {
    hide SenderOk, RecvMid, FarOk, Vouched;
    RecvSame(e, e.(fl := f), far);
    assert forall k :: PipeAt(f.tx, k) <==> PipeAt(e.fl.tx, k);
  }

  lemma RolledMid(e: Node, a: nat, ackdiff: nat, newct: nat, far: Story, own: Story)
    requires Mid(e, far, own) && a == e.fl.tx.txackseq + ackdiff < e.fl.tx.txseq && newct <= MASK_BITS
    ensures Mid(e.(fl := RollAck(e.fl, a, ackdiff, newct)), far, own)
  {
    hide Mid, RollMask, NumRange;
    AckFieldsMid(e, RollAck(e.fl, a, ackdiff, newct), far, own);
  }

  lemma ResettleKeeps(e: Node, a: nat, ackdiff: nat, newct: nat, rxseq: int, far: Story, own: Story)
    requires Mid(e, far, own) && a == e.fl.tx.txackseq + ackdiff < e.fl.tx.txseq && newct <= MASK_BITS
    requires forall k :: a - newct + 1 <= k < a + 1 ==> k in far.acked
    ensures Mid(Resettle(e, H, a, ackdiff, newct, rxseq), far, own)
  {
    hide Mid, RollAck, SettleRange, LossLow, LossHigh;
    RolledMid(e, a, ackdiff, newct, far, own);
    var e1 := e.(fl := RollAck(e.fl, a, ackdiff, newct));
    SettleRangeKeeps(e1, a - newct + 1, a + 1, ByAck(rxseq), far, own);
    var e2 := SettleRange(e1, H, a - newct + 1, a + 1, ByAck(rxseq));
    SettleRangeKeeps(e2, LossLow(a, ackdiff), LossHigh(a, newct) + 1, ByLoss, far, own);
  }

  lemma AdvanceKeeps(e: Node, a: nat, ackdiff: nat, ackct: nat, rxseq: int, far: Story, own: Story)
    requires Mid(e, far, own) && Good(e.fl) && 0 < ackdiff && ackct <= ACKCT_MAX
    requires a == e.fl.tx.txackseq + ackdiff < e.fl.tx.txseq
    requires forall k :: a - ackct <= k <= a ==> k in far.acked
    ensures Mid(Advance(e, H, a, ackdiff, ackct, rxseq), far, own)
  {
    hide Mid, Core, CcOk, MaskOk, Resettle, ExpireRange, PipeAt, RollMask, NumRange;
    var newct := NewCount(ackdiff, ackct);
    ResettleKeeps(e, a, ackdiff, newct, rxseq, far, own);
    ResettleCore(e, H, a, ackdiff, newct, rxseq);
    var e3 := Resettle(e, H, a, ackdiff, newct, rxseq);
    if a > MASK_BITS {
      ExpireRangeKeeps(e3, e3.fl.tx.txevtseq, a - MASK_BITS + 1, far, own);
    }
  }

  lemma CreditMid(e: Node, bit: nat, far: Story, own: Story)
    requires Mid(e, far, own) && bit < MASK_BITS
    ensures Mid(e.(fl := Credit(e.fl, bit)), far, own)
  {
    MidSender(e, far, own);
    AckFieldsMid(e, Credit(e.fl, bit), far, own);
  }

  lemma {:induction false} StraggleKeeps(e: Node, i: nat, ackct: nat, back: nat, rxseq: int, cnt: nat, far: Story, own: Story)
    requires Mid(e, far, own) && Good(e.fl) && back + ackct <= e.fl.tx.txackseq
    requires forall k :: e.fl.tx.txackseq - back - ackct <= k <= e.fl.tx.txackseq - back ==> k in far.acked
    ensures Mid(Straggle(e, H, i, ackct, back, rxseq, cnt).0, far, own)
    decreases ackct + 1 - i
  {
    hide Mid, Good, Settle, Progress, PipeAt;
    if i <= ackct && back + i < MASK_BITS {
      if back + i in e.fl.tx.txackmask {
        StraggleKeeps(e, i + 1, ackct, back, rxseq, cnt, far, own);
      } else {
        CreditMid(e, back + i, far, own);
        SettleKeeps(e.(fl := Credit(e.fl, back + i)), e.fl.tx.txackseq - (back + i), ByAck(rxseq), far, own);
        StraggleStep(e, H, back + i, rxseq);
        StraggleKeeps(StraggleTurn(e, H, back + i, rxseq), i + 1, ackct, back, rxseq, cnt + 1, far, own);
      }
    }
  }

  lemma StragglersKeeps(e: Node, ackct: nat, back: nat, rxseq: int, cnt: nat, far: Story, own: Story)
    requires Mid(e, far, own) && Good(e.fl) && back + ackct <= e.fl.tx.txackseq && ackct <= ACKCT_MAX
    requires forall k :: e.fl.tx.txackseq - back - ackct <= k <= e.fl.tx.txackseq - back ==> k in far.acked
    ensures Mid(Stragglers(e, H, ackct, back, rxseq, cnt).0, far, own)
  {
    hide Mid, Good, Straggle;
    StraggleKeeps(e, 0, ackct, back, rxseq, cnt, far, own);
  }

  /** An acknowledgment whose run the peer really acknowledged releases only what has arrived. */
  lemma TakeAcksKeeps(e: Node, word: nat, rxseq: int, ackseq: nat, far: Story, own: Story)
    requires Mid(e, far, own) && Good(e.fl) && e.fl.tx.txseq <= SEQ_LIMIT
    requires ackseq == Recover(word, e.fl.tx.txackseq) < e.fl.tx.txseq && AckCount(word) <= ackseq
    requires forall k :: ackseq - AckCount(word) <= k <= ackseq ==> k in far.acked
    ensures Mid(TakeAcks(e, H, word, rxseq).0, far, own)
  {
    hide Mid, Good, Advance, Stragglers, SeqDiff, Recover, Progress, NumRange, AckCount, RollMask;
    FE.AckInWindow(e.fl, word, ackseq);
    var ackct, ackdiff := AckCount(word), SeqDiff(word, e.fl.tx.txackseq);
    if ackdiff > 0 {
      AdvanceKeeps(e, ackseq, ackdiff, ackct, rxseq, far, own);
      AdvanceCore(e, H, ackseq, ackdiff, ackct, rxseq);
      StragglersKeeps(Advance(e, H, ackseq, ackdiff, ackct, rxseq), ackct, 0, rxseq, NewCount(ackdiff, ackct), far, own);
    } else {
      StragglersKeeps(e, ackct, -ackdiff, rxseq, 0, far, own);
    }
  }
}
