/** Acknowledgments are not only true but made: what a flow undertakes to report it reports, and its
    histories only grow (acknowledge, flushack, flowTransmit in lib/flow.cc, lib/flow.h). */
module AckReports {
  import opened Words
  import opened FlowSpec
  import opened FlowInvariant
  import FE = FlowEvents

  // ---------- what a header names ----------

  /** Packet n is in the run an acknowledgment word names. */
  predicate Names(word: nat, n: int) {
    word % SEQ24 - AckCount(word) <= n <= word % SEQ24
  }

  /** Some header sent so far names packet n. */
  ghost predicate Reported<P>(f: Flow<P>, n: int) {
    exists m :: 0 <= m < |f.hist.sent| && Names(f.hist.sent[m].ackword, n)
  }

  /** Packet n is one of the last rxunacked packets of the run. */
  predicate Waiting(r: Rx, n: int) {
    r.rxackseq - r.rxunacked < n <= r.rxackseq
  }

  /** Everything promised has been reported, or waits inside the run that the next header names. */
  ghost predicate Owing<P>(f: Flow<P>) {
    && f.rx.rxunacked < ACK_EVERY && f.rx.rxunacked <= f.rx.rxackct <= ACKCT_MAX
    && f.rx.rxackseq < WORD16 && f.rx.rxackseq in f.hist.acknowledged
    && forall n :: n in f.hist.promised ==> Reported(f, n) || Waiting(f.rx, n)
  }

  /** Only accepted packets are acknowledged. */
  ghost predicate AckedAccepted<P>(f: Flow<P>) {
    forall n :: n in f.hist.acknowledged ==> n in f.hist.accepted
  }

  lemma InitOwing<P>()
    ensures Owing(InitFlow<P>()) && AckedAccepted(InitFlow<P>())
  {
  }

  // ---------- histories only grow ----------

  ghost predicate Later<P>(f: Flow<P>, g: Flow<P>) {
    && f.tx.txseq <= g.tx.txseq
    && f.hist.sent <= g.hist.sent && f.hist.notes <= g.hist.notes
    && f.hist.credited <= g.hist.credited && f.hist.accepted <= g.hist.accepted
    && f.hist.acknowledged <= g.hist.acknowledged && f.hist.promised <= g.hist.promised
  }

  /** g is f after steps that acknowledge nothing. */
  ghost predicate Onward<P>(f: Flow<P>, g: Flow<P>) {
    && Later(f, g)
    && g.rx == f.rx.(rxunacked := g.rx.rxunacked)
    && g.hist.accepted == f.hist.accepted && g.hist.acknowledged == f.hist.acknowledged
    && g.hist.promised == f.hist.promised
    && (Owing(f) ==> Owing(g))
  }

  lemma LaterRefl<P>(f: Flow<P>)
    ensures Later(f, f)
  {
  }

  lemma LaterNumbers<P>(f: Flow<P>, g: Flow<P>)
    requires Later(f, g)
    ensures f.tx.txseq <= g.tx.txseq
  {
  }

  lemma LaterTrans<P>(f: Flow<P>, g: Flow<P>, k: Flow<P>)
    requires Later(f, g) && Later(g, k)
    ensures Later(f, k)
  {
  }

  lemma OnwardLater<P>(f: Flow<P>, g: Flow<P>)
    requires Onward(f, g)
    ensures Later(f, g)
  {
  }

  lemma OnwardKeeps<P>(f: Flow<P>, g: Flow<P>)
    requires Onward(f, g)
    ensures Owing(f) ==> Owing(g)
    ensures AckedAccepted(f) ==> AckedAccepted(g)
  {
  }

  lemma OnwardTrans<P>(f: Flow<P>, g: Flow<P>, k: Flow<P>)
    requires Onward(f, g) && Onward(g, k)
    ensures Onward(f, k)
  {
    hide Owing;
  }

  lemma ReportedLater<P>(f: Flow<P>, g: Flow<P>, n: int)
    requires f.hist.sent <= g.hist.sent && Reported(f, n)
    ensures Reported(g, n)
  {
    var m :| 0 <= m < |f.hist.sent| && Names(f.hist.sent[m].ackword, n);
    assert g.hist.sent[m] == f.hist.sent[m];
  }

  /** Steps that send nothing and acknowledge nothing. */
  lemma Silent<P>(f: Flow<P>, g: Flow<P>)
    requires g.rx == f.rx && g.tx.txseq == f.tx.txseq && g.hist.sent == f.hist.sent
    requires f.hist.notes <= g.hist.notes && f.hist.credited <= g.hist.credited
    requires g.hist.accepted == f.hist.accepted && g.hist.acknowledged == f.hist.acknowledged
    requires g.hist.promised == f.hist.promised
    ensures Onward(f, g)
  {
    if Owing(f) {
      forall n | n in g.hist.promised ensures Reported(g, n) || Waiting(g.rx, n) {
        if Reported(f, n) { ReportedLater(f, g, n); }
      }
    }
  }

  // ---------- headers ----------

  /** The word of a header names the whole run it was made from. */
  lemma PackNames(ackseq: nat, ackct: nat, n: int)
    requires ackct <= ACKCT_MAX && ackseq < SEQ24
    ensures Names(PackAck(ackseq, ackct), n) <==> ackseq - ackct <= n <= ackseq
  {
    PackAckFields(ackseq, ackct);
  }

  /** Once a header with the current run is out, nothing is owed. */
  lemma HeaderSettles<P>(f: Flow<P>, body: Body<P>, size: nat)
    ensures Onward(f, TxPacket(f.(rx := f.rx.(rxunacked := 0)), PackAck(f.rx.rxackseq, f.rx.rxackct), body, size))
  {
    hide PackAck;
    var g := TxPacket(f.(rx := f.rx.(rxunacked := 0)), PackAck(f.rx.rxackseq, f.rx.rxackct), body, size);
    if Owing(f) {
      forall n | n in g.hist.promised ensures Reported(g, n) {
        if Reported(f, n) {
          ReportedLater(f, g, n);
        } else {
          PackNames(f.rx.rxackseq, f.rx.rxackct, n);
          assert g.hist.sent[|f.hist.sent|].ackword == PackAck(f.rx.rxackseq, f.rx.rxackct);
        }
      }
    }
  }

  /** A data packet carries the whole current run. */
  lemma DataCarriesRun<P>(f: Flow<P>, p: P, size: nat, n: int)
    requires f.rx.rxackct <= ACKCT_MAX && f.rx.rxackseq < SEQ24
    ensures FlowTransmit(f, p, size).hist.sent[..|f.hist.sent|] == f.hist.sent
    ensures |FlowTransmit(f, p, size).hist.sent| == |f.hist.sent| + 1
    ensures FlowTransmit(f, p, size).hist.sent[|f.hist.sent|].body == Data(p)
    ensures Names(FlowTransmit(f, p, size).hist.sent[|f.hist.sent|].ackword, n)
       <==> f.rx.rxackseq - f.rx.rxackct <= n <= f.rx.rxackseq
    ensures FlowTransmit(f, p, size).rx.rxunacked == 0
    ensures FlowTransmit(f, p, size).tx.txevts == f.tx.txevts + [TxEvent(size, true, true)]
  {
    hide Names, PackAck;
    PackNames(f.rx.rxackseq, f.rx.rxackct, n);
  }

  /** flushack() with something to report sends exactly one bare packet, which names the whole run;
      without, it does nothing. */
  lemma FlushReports<P>(f: Flow<P>, n: int)
    requires f.rx.rxackct <= ACKCT_MAX
    ensures f.rx.rxunacked == 0 ==> FlushAck(f) == f
    ensures f.rx.rxunacked != 0 ==>
      && |FlushAck(f).hist.sent| == |f.hist.sent| + 1 && FlushAck(f).hist.sent[..|f.hist.sent|] == f.hist.sent
      && FlushAck(f).hist.sent[|f.hist.sent|].body == Bare
      && AckCount(FlushAck(f).hist.sent[|f.hist.sent|].ackword) == f.rx.rxackct
      && FlushAck(f).hist.sent[|f.hist.sent|].ackword % SEQ24 == f.rx.rxackseq % SEQ24
    ensures FlushAck(f).rx.rxunacked == 0
  {
    hide AckCount, PackAck;
    PackAckFields(f.rx.rxackseq, f.rx.rxackct);
  }

  lemma FlushOnward<P>(f: Flow<P>)
    ensures Onward(f, FlushAck(f))
  {
    hide TxPacket, Onward;
    if f.rx.rxunacked != 0 { HeaderSettles(f, Bare, ACK_PACKET_SIZE); } else { Silent(f, f); }
  }

  /** When the acknowledgment timer fires, everything promised has been reported. */
  lemma TimerReports<U, P>(e: End<U, P>, n: int)
    requires Owing(e.fl) && n in e.fl.hist.promised
    ensures Reported(AckTimeout(e).fl, n) && AckTimeout(e).fl.rx.rxunacked == 0
  {
    hide Reported;
    FlushClears(e.fl);
  }

  // ---------- acknowledge() ----------

  lemma BareReports<P>(f: Flow<P>, n: nat)
    requires n < WORD16
    ensures Reported(TransmitAck(f, n, 0), n)
  {
    hide PackAck;
    PackNames(n, 0, n);
    assert TransmitAck(f, n, 0).hist.sent[|f.hist.sent|].ackword == PackAck(n, 0);
  }

  /** The next packet in order joins those that wait; the fourth sends them all. */
  lemma NextNoted<P>(f: Flow<P>, n: nat, sendack: bool)
    requires Owing(f) && n == f.rx.rxackseq + 1 < WORD16
    ensures Owing(AckNext(Noted(f, n, sendack), n))
  {
    hide FlushAck;
    var k := Noted(f, n, sendack);
    var r := f.rx.(rxackseq := n, rxackct := Min(f.rx.rxackct + 1, ACKCT_MAX), rxunacked := f.rx.rxunacked + 1);
    var g := k.(rx := r);
    forall m | m in g.hist.promised ensures Reported(g, m) || Waiting(r, m) {
      if m != n && Reported(f, m) { ReportedLater(f, g, m); }
    }
    if r.rxunacked < ACK_EVERY {
      assert Owing(g);
    } else {
      FlushFull(g);
    }
  }

  /** Flushing when the count is full. */
  lemma FlushFull<P>(f: Flow<P>)
    requires 0 < f.rx.rxunacked <= f.rx.rxackct <= ACKCT_MAX && f.rx.rxackseq < WORD16
    requires f.rx.rxackseq in f.hist.acknowledged
    requires forall n :: n in f.hist.promised ==> Reported(f, n) || Waiting(f.rx, n)
    ensures Owing(FlushAck(f))
  {
    hide PackAck;
    var g := FlushAck(f);
    forall n | n in g.hist.promised ensures Reported(g, n) {
      if Reported(f, n) {
        ReportedLater(f, g, n);
      } else {
        PackNames(f.rx.rxackseq, f.rx.rxackct, n);
        assert g.hist.sent[|f.hist.sent|].ackword == PackAck(f.rx.rxackseq, f.rx.rxackct);
      }
    }
  }

  /** Acknowledgments are delayed: in order, nothing is sent until the fourth packet. */
  lemma InOrderDelays<P>(f: Flow<P>, n: nat, sendack: bool)
    requires f.rx.rxackseq < WORD16 && n == f.rx.rxackseq + 1 < WORD16
    ensures f.rx.rxunacked + 1 < ACK_EVERY ==>
      Acknowledge(f, n, sendack).hist.sent == f.hist.sent && Acknowledge(f, n, sendack).rx.rxunacked == f.rx.rxunacked + 1
    ensures f.rx.rxunacked + 1 >= ACK_EVERY ==>
      |Acknowledge(f, n, sendack).hist.sent| == |f.hist.sent| + 1 && Acknowledge(f, n, sendack).rx.rxunacked == 0
  {
    hide Signed32, PackAck;
    SmallNumbers(n, f.rx.rxackseq);
  }

  /** Everything promised has been reported. */
  ghost predicate Clear<P>(f: Flow<P>) {
    forall n :: n in f.hist.promised ==> Reported(f, n)
  }

  lemma FlushClears<P>(f: Flow<P>)
    requires Owing(f)
    ensures Clear(FlushAck(f)) && FlushAck(f).rx == f.rx.(rxunacked := 0)
    ensures f.hist.sent <= FlushAck(f).hist.sent && FlushAck(f).hist == f.hist.(sent := FlushAck(f).hist.sent)
  {
    FlushOnward(f);
    assert forall n :: !Waiting(FlushAck(f).rx, n);
  }

  /** Flushing does not look at what was promised. */
  lemma FlushNoted<P>(f: Flow<P>, n: nat, sendack: bool)
    ensures FlushAck(Noted(f, n, sendack)) == Noted(FlushAck(f), n, sendack)
  {
  }

  /** After a flush, a packet that is reported on its own, or was not to be reported. */
  lemma LoneOwing<P>(g: Flow<P>, n: nat, sendack: bool, rx: Rx)
    requires Clear(g) && n < WORD16 && rx.rxunacked == 0 && rx.rxackct <= ACKCT_MAX && rx.rxackseq < WORD16
    requires rx.rxackseq == n || rx.rxackseq in g.hist.acknowledged
    ensures sendack ==> Owing(TransmitAck(Noted(g, n, true).(rx := rx), n, 0))
    ensures !sendack ==> Owing(Noted(g, n, false).(rx := rx))
  {
    hide PackAck, Names;
    if sendack {
      var k := TransmitAck(Noted(g, n, true).(rx := rx), n, 0);
      BareReports(Noted(g, n, true).(rx := rx), n);
      forall m | m in k.hist.promised ensures Reported(k, m) {
        if m != n { ReportedLater(g, k, m); }
      }
    } else {
      var k := Noted(g, n, false).(rx := rx);
      forall m | m in k.hist.promised ensures Reported(k, m) { ReportedLater(g, k, m); }
    }
  }

  lemma SmallNumbers(n: nat, m: nat)
    requires n < WORD16 && m < WORD16
    ensures n % WORD16 == n && Signed32(n - m) == n - m
  {
  }

  /** Acknowledging a packet for the first time: if it is to be reported, some header names it now, or
      it is among the fewer than four that the next header will name. */
  lemma AcknowledgeOwing<P>(f: Flow<P>, n: nat, sendack: bool)
    requires Owing(f) && n < WORD16 && n != f.rx.rxackseq
    ensures Owing(Acknowledge(f, n, sendack))
    ensures sendack ==> Reported(Acknowledge(f, n, sendack), n) || Waiting(Acknowledge(f, n, sendack).rx, n)
  {
    hide FlushAck, TransmitAck, Signed32, Reported, Noted;
    SmallNumbers(n, f.rx.rxackseq);
    NotedRx(f, n, sendack);
    NotedRx(FlushAck(f), n, sendack);
    FlushClears(f);
    FlushNoted(f, n, sendack);
    if n == f.rx.rxackseq + 1 {
      NextNoted(f, n, sendack);
    } else if n > f.rx.rxackseq {
      LoneOwing(FlushAck(f), n, sendack, f.rx.(rxunacked := 0, rxackseq := n, rxackct := 0));
    } else {
      LoneOwing(FlushAck(f), n, sendack, f.rx.(rxunacked := 0));
    }
    AcknowledgeHistory(f, n, sendack);
  }

  lemma NotedRx<P>(f: Flow<P>, n: nat, sendack: bool)
    ensures Noted(f, n, sendack).rx == f.rx
    ensures Noted(f, n, sendack).(rx := f.rx) == Noted(f, n, sendack)
  {
  }

  lemma AcknowledgeHistory<P>(f: Flow<P>, n: nat, sendack: bool)
    ensures Later(f, Acknowledge(f, n, sendack))
    ensures Acknowledge(f, n, sendack).hist.acknowledged == f.hist.acknowledged + {n}
    ensures Acknowledge(f, n, sendack).hist.accepted == f.hist.accepted
    ensures Acknowledge(f, n, sendack).hist.notes == f.hist.notes
    ensures Acknowledge(f, n, sendack).hist.promised == if sendack then f.hist.promised + {n} else f.hist.promised
  {
    hide Signed32, PackAck;
  }

  // ---------- every step ----------

  lemma {:induction false} ServeGrows<P>(f: Flow<P>, size: P -> nat, reqs: seq<Req<P>>)
    ensures Onward(f, Serve(f, size, reqs))
    decreases |reqs|
  {
    hide Onward, TxPacket;
    if reqs == [] {
      Silent(f, f);
    } else {
      match reqs[0] {
        case Send(p) =>
          HeaderSettles(f, Data(p), size(p));
          ServeGrows(FlowTransmit(f, p, size(p)), size, reqs[1..]);
          OnwardTrans(f, FlowTransmit(f, p, size(p)), Serve(f, size, reqs));
        case Probe =>
          Silent(f, MayTransmit(f));
          ServeGrows(MayTransmit(f), size, reqs[1..]);
          OnwardTrans(f, MayTransmit(f), Serve(f, size, reqs));
      }
    }
  }

  lemma NotifyGrows<U, P>(e: End<U, P>, h: Upper<U, P>, x: Note)
    ensures Onward(e.fl, Notify(e, h, x).fl)
  {
    hide Onward, Serve;
    Silent(e.fl, WithNote(e.fl, x));
    ServeGrows(WithNote(e.fl, x), h.size, h.note(e.up, x, e.fl.tx.txseq).1);
    OnwardTrans(e.fl, WithNote(e.fl, x), Notify(e, h, x).fl);
  }

  lemma SettleGrows<U, P>(e: End<U, P>, h: Upper<U, P>, n: int, why: Cause)
    ensures Onward(e.fl, Settle(e, h, n, why).fl)
  {
    hide Notify, Onward;
    if PipeAt(e.fl.tx, n) {
      var f := e.fl.(tx := ClearPipe(e.fl.tx, n));
      var g := if why.ByLoss? then CcMissed(f, n) else f;
      Silent(e.fl, g);
      NotifyGrows(e.(fl := g), h, SettleNote(n, why));
      OnwardTrans(e.fl, g, Settle(e, h, n, why).fl);
    } else {
      Silent(e.fl, e.fl);
    }
  }

  lemma {:induction false} SettleRangeGrows<U, P>(e: End<U, P>, h: Upper<U, P>, n: int, lim: int, why: Cause)
    ensures Onward(e.fl, SettleRange(e, h, n, lim, why).fl)
    decreases lim - n
  {
    hide Settle, Onward;
    if n < lim {
      SettleGrows(e, h, n, why);
      SettleRangeGrows(Settle(e, h, n, why), h, n + 1, lim, why);
      OnwardTrans(e.fl, Settle(e, h, n, why).fl, SettleRange(e, h, n, lim, why).fl);
    } else {
      Silent(e.fl, e.fl);
    }
  }

  lemma {:induction false} ExpireRangeGrows<U, P>(e: End<U, P>, h: Upper<U, P>, n: int, lim: int)
    ensures Onward(e.fl, ExpireRange(e, h, n, lim).fl)
    decreases lim - n
  {
    hide Notify, Onward;
    if n < lim && e.fl.tx.txevts != [] {
      var e1 := Notify(e.(fl := PopHead(e.fl)), h, Expired(n));
      Silent(e.fl, PopHead(e.fl));
      NotifyGrows(e.(fl := PopHead(e.fl)), h, Expired(n));
      OnwardTrans(e.fl, PopHead(e.fl), e1.fl);
      ExpireRangeGrows(e1, h, n + 1, lim);
      OnwardTrans(e.fl, e1.fl, ExpireRange(e, h, n, lim).fl);
    } else {
      Silent(e.fl, e.fl);
    }
  }

  lemma {:induction false} StraggleGrows<U, P>(
      e: End<U, P>, h: Upper<U, P>, i: nat, ackct: nat, back: nat, rxseq: int, cnt: nat)
    ensures Onward(e.fl, Straggle(e, h, i, ackct, back, rxseq, cnt).0.fl)
    decreases ackct + 1 - i
  {
    hide Settle, Onward;
    if i <= ackct && back + i < MASK_BITS {
      if back + i in e.fl.tx.txackmask {
        StraggleGrows(e, h, i + 1, ackct, back, rxseq, cnt);
      } else {
        var e1 := StraggleTurn(e, h, back + i, rxseq);
        Silent(e.fl, Credit(e.fl, back + i));
        SettleGrows(e.(fl := Credit(e.fl, back + i)), h, e.fl.tx.txackseq - (back + i), ByAck(rxseq));
        OnwardTrans(e.fl, Credit(e.fl, back + i), e1.fl);
        StraggleGrows(e1, h, i + 1, ackct, back, rxseq, cnt + 1);
        OnwardTrans(e.fl, e1.fl, Straggle(e, h, i, ackct, back, rxseq, cnt).0.fl);
      }
    } else {
      Silent(e.fl, e.fl);
    }
  }

  lemma ResettleGrows<U, P>(e: End<U, P>, h: Upper<U, P>, a: nat, ackdiff: nat, newct: nat, rxseq: int)
    requires newct <= MASK_BITS
    ensures Onward(e.fl, Resettle(e, h, a, ackdiff, newct, rxseq).fl)
  {
    hide SettleRange, Onward, LossLow, LossHigh, RollMask, NumRange;
    var e1 := e.(fl := RollAck(e.fl, a, ackdiff, newct));
    Silent(e.fl, e1.fl);
    SettleRangeGrows(e1, h, a - newct + 1, a + 1, ByAck(rxseq));
    var e2 := SettleRange(e1, h, a - newct + 1, a + 1, ByAck(rxseq));
    OnwardTrans(e.fl, e1.fl, e2.fl);
    SettleRangeGrows(e2, h, LossLow(a, ackdiff), LossHigh(a, newct) + 1, ByLoss);
    OnwardTrans(e.fl, e2.fl, Resettle(e, h, a, ackdiff, newct, rxseq).fl);
  }

  lemma AdvanceGrows<U, P>(e: End<U, P>, h: Upper<U, P>, a: nat, ackdiff: nat, ackct: nat, rxseq: int)
    requires ackct <= ACKCT_MAX
    ensures Onward(e.fl, Advance(e, h, a, ackdiff, ackct, rxseq).fl)
  {
    hide Resettle, ExpireRange, Onward;
    var newct := NewCount(ackdiff, ackct);
    ResettleGrows(e, h, a, ackdiff, newct, rxseq);
    var e3 := Resettle(e, h, a, ackdiff, newct, rxseq);
    if a > MASK_BITS {
      ExpireRangeGrows(e3, h, e3.fl.tx.txevtseq, a - MASK_BITS + 1);
      OnwardTrans(e.fl, e3.fl, Advance(e, h, a, ackdiff, ackct, rxseq).fl);
    }
  }

  lemma StragglersGrows<U, P>(e: End<U, P>, h: Upper<U, P>, ackct: nat, back: nat, rxseq: int, cnt: nat)
    requires ackct <= ACKCT_MAX
    ensures Onward(e.fl, Stragglers(e, h, ackct, back, rxseq, cnt).0.fl)
  {
    hide Straggle, Onward;
    StraggleGrows(e, h, 0, ackct, back, rxseq, cnt);
    Silent(e.fl, e.fl);
  }

  lemma TakeAcksGrows<U, P>(e: End<U, P>, h: Upper<U, P>, word: nat, rxseq: int)
    ensures Onward(e.fl, TakeAcks(e, h, word, rxseq).0.fl)
  {
    hide Advance, Stragglers, SeqDiff, Onward;
    var ackct, ackdiff := AckCount(word), SeqDiff(word, e.fl.tx.txackseq);
    if ackdiff > 0 {
      AdvanceGrows(e, h, e.fl.tx.txackseq + ackdiff, ackdiff, ackct, rxseq);
      var e1 := Advance(e, h, e.fl.tx.txackseq + ackdiff, ackdiff, ackct, rxseq);
      StragglersGrows(e1, h, ackct, 0, rxseq, NewCount(ackdiff, ackct));
      OnwardTrans(e.fl, e1.fl, TakeAcks(e, h, word, rxseq).0.fl);
    } else {
      StragglersGrows(e, h, ackct, -ackdiff, rxseq, 0);
    }
  }

  lemma GrowWindowGrows<P>(f: Flow<P>, newpackets: nat, ackseq: int)
    ensures Onward(f, GrowWindow(f, newpackets, ackseq))
  {
    hide Onward;
    Silent(f, GrowWindow(f, newpackets, ackseq));
  }

  lemma MoreGrows<U, P>(e: End<U, P>, h: Upper<U, P>, newpackets: nat)
    ensures Onward(e.fl, MoreIfAllowed(e, h, newpackets).fl)
  {
    hide Notify, Onward;
    NotifyGrows(e, h, Ready);
    Silent(e.fl, MayTransmit(e.fl));
    Silent(e.fl, e.fl);
  }

  lemma TimeoutGrows<U, P>(e: End<U, P>, h: Upper<U, P>)
    ensures Onward(e.fl, RtxTimeout(e, h).fl)
  {
    hide SettleRange, Notify, Onward;
    var c := e.fl.cc.(ssthresh := Max(Max(e.fl.tx.txfltcnt, 0) / 2, CWND_MIN), cwnd := CWND_MIN);
    var e1 := e.(fl := e.fl.(cc := c));
    Silent(e.fl, e1.fl);
    SettleRangeGrows(e1, h, e.fl.tx.txevtseq, e.fl.tx.txseq, ByTimeout);
    var e2 := SettleRange(e1, h, e.fl.tx.txevtseq, e.fl.tx.txseq, ByTimeout);
    OnwardTrans(e.fl, e1.fl, e2.fl);
    NotifyGrows(e2, h, Ready);
    OnwardTrans(e.fl, e2.fl, RtxTimeout(e, h).fl);
  }

  // ---------- deliveries ----------

  /** Handing up a packet accepted just now. */
  lemma DeliverOwing<U, P>(e: End<U, P>, h: Upper<U, P>, n: nat, body: Body<P>)
    ensures Later(e.fl, Deliver(e, h, n, body).fl)
    ensures Owing(e.fl) && AckedAccepted(e.fl) && n < WORD16 && n !in e.fl.hist.acknowledged && n in e.fl.hist.accepted ==>
      Owing(Deliver(e, h, n, body).fl) && AckedAccepted(Deliver(e, h, n, body).fl)
  {
    hide Notify, Acknowledge, Later, Onward, Owing;
    var r := h.recv(e.up, n, body);
    AcknowledgeHistory(e.fl, n, false);
    LaterRefl(e.fl);
    var quiet := if r.1 == AckQuietly then Acknowledge(e.fl, n, false) else e.fl;
    NotifyGrows(End(quiet, r.0), h, Ready);
    var e1 := Notify(End(quiet, r.0), h, Ready);
    OnwardLater(quiet, e1.fl);
    LaterTrans(e.fl, quiet, e1.fl);
    AcknowledgeHistory(e1.fl, n, true);
    LaterTrans(e.fl, e1.fl, Acknowledge(e1.fl, n, true));
    if Owing(e.fl) && AckedAccepted(e.fl) && n < WORD16 && n !in e.fl.hist.acknowledged && n in e.fl.hist.accepted {
      OwingTop(e.fl);
      AcknowledgeOwing(e.fl, n, false);
      OnwardKeeps(quiet, e1.fl);
      OnwardSame(quiet, e1.fl);
      if r.1 == AckSoon {
        OwingTop(e1.fl);
        AcknowledgeOwing(e1.fl, n, true);
      }
    }
  }

  lemma OwingTop<P>(f: Flow<P>)
    requires Owing(f)
    ensures f.rx.rxackseq in f.hist.acknowledged
  {
  }

  lemma OnwardSame<P>(f: Flow<P>, g: Flow<P>)
    requires Onward(f, g)
    ensures g.hist.accepted == f.hist.accepted && g.hist.acknowledged == f.hist.acknowledged
  {
  }

  lemma AcceptOwing<P>(f: Flow<P>, seqdiff: int, n: nat)
    requires -MASK_BITS < seqdiff
    ensures Later(f, Accept(f, seqdiff, n))
    ensures Owing(f) ==> Owing(Accept(f, seqdiff, n))
    ensures AckedAccepted(f) ==> AckedAccepted(Accept(f, seqdiff, n))
    ensures Accept(f, seqdiff, n).hist.acknowledged == f.hist.acknowledged
    ensures Accept(f, seqdiff, n).hist.accepted == f.hist.accepted + [n] && Accept(f, seqdiff, n).tx == f.tx
  {
    hide Names;
    var g := Accept(f, seqdiff, n);
    if Owing(f) {
      forall m | m in g.hist.promised ensures Reported(g, m) || Waiting(g.rx, m) {
        if Reported(f, m) { ReportedLater(f, g, m); }
      }
    }
  }

  lemma ProcessOwing<U, P>(e: End<U, P>, h: Upper<U, P>, n: nat, pkt: Packet<P>)
    ensures Later(e.fl, Process(e, h, n, pkt).fl)
    ensures Owing(e.fl) && AckedAccepted(e.fl) && n < WORD16 && n !in e.fl.hist.acknowledged && n in e.fl.hist.accepted ==>
      Owing(Process(e, h, n, pkt).fl) && AckedAccepted(Process(e, h, n, pkt).fl)
  {
    hide TakeAcks, GrowWindow, Deliver, MoreIfAllowed, Later, Onward, Owing, AckedAccepted, Recover;
    LaterRefl(e.fl);
    var ackseq := Recover(pkt.ackword, e.fl.tx.txackseq);
    if ackseq < e.fl.tx.txseq {
      var r := TakeAcks(e, h, pkt.ackword, n);
      TakeAcksGrows(e, h, pkt.ackword, n);
      GrowWindowGrows(r.0.fl, r.1, ackseq);
      var e2 := r.0.(fl := GrowWindow(r.0.fl, r.1, ackseq));
      OnwardTrans(e.fl, r.0.fl, e2.fl);
      OnwardLater(e.fl, e2.fl);
      OnwardSame(e.fl, e2.fl);
      OnwardKeeps(e.fl, e2.fl);
      DeliverOwing(e2, h, n, pkt.body);
      var e3 := Deliver(e2, h, n, pkt.body);
      LaterTrans(e.fl, e2.fl, e3.fl);
      MoreGrows(e3, h, r.1);
      OnwardLater(e3.fl, MoreIfAllowed(e3, h, r.1).fl);
      OnwardKeeps(e3.fl, MoreIfAllowed(e3, h, r.1).fl);
      LaterTrans(e.fl, e3.fl, MoreIfAllowed(e3, h, r.1).fl);
    }
  }

  lemma AdmissibleNear(r: Rx, seqdiff: int, n: int)
    requires Admissible(r, seqdiff, n)
    ensures -MASK_BITS < seqdiff
  {
  }

  lemma ReceiveGrows<U, P>(e: End<U, P>, h: Upper<U, P>, w: Wire<P>)
    ensures Later(e.fl, Receive(e, h, w).fl)
  {
    hide Process, Accept, Recover, SeqDiff, Later, Admissible;
    var seqdiff, n := SeqDiff(w.word, e.fl.rx.rxseq), Recover(w.word, e.fl.rx.rxseq);
    LaterRefl(e.fl);
    if Admissible(e.fl.rx, seqdiff, n) && RxDec(n, w) {
      AdmissibleNear(e.fl.rx, seqdiff, n);
      AcceptOwing(e.fl, seqdiff, n);
      ProcessOwing(e.(fl := Accept(e.fl, seqdiff, n)), h, n, w.pkt);
      LaterTrans(e.fl, Accept(e.fl, seqdiff, n), Receive(e, h, w).fl);
    }
  }

  /** receive() keeps every promise, for packets numbered below 2^16. */
  lemma ReceiveOwing<U, P>(e: End<U, P>, h: Upper<U, P>, w: Wire<P>)
    requires FE.Sound(e.fl) && Owing(e.fl) && AckedAccepted(e.fl) && (w.Wire? ==> w.seal < WORD16)
    ensures Owing(Receive(e, h, w).fl) && AckedAccepted(Receive(e, h, w).fl)
  {
    hide Process, Accept, Recover, SeqDiff, Owing, Admissible, Good, RxOk;
    var seqdiff, n := SeqDiff(w.word, e.fl.rx.rxseq), Recover(w.word, e.fl.rx.rxseq);
    if Admissible(e.fl.rx, seqdiff, n) && RxDec(n, w) {
      AdmissibleNear(e.fl.rx, seqdiff, n);
      FE.RecordOk(e.fl, w.word, n);
      AcceptOwing(e.fl, seqdiff, n);
      ProcessOwing(e.(fl := Accept(e.fl, seqdiff, n)), h, n, w.pkt);
    }
  }

  // ---------- every run of one flow ----------

  /** In every run of a flow in which the peer numbers its packets below 2^16, whatever was to be
      reported has been named in a header, or is among the fewer than four the next header names. */
  lemma {:induction false} RunReports<U, P>(u: U, h: Upper<U, P>, evs: seq<FlowEvent<P>>)
    requires FE.FairRun(End(InitFlow(), u), h, evs)
    requires forall i :: 0 <= i < |evs| && evs[i].Arrive? && evs[i].w.Wire? ==> evs[i].w.seal < WORD16
    ensures Owing(FlowRun(End(InitFlow(), u), h, evs).fl) && AckedAccepted(FlowRun(End(InitFlow(), u), h, evs).fl)
    decreases |evs|
  {
    hide Owing, AckedAccepted, FE.Sound, FE.WireOk, Receive, RtxTimeout, Notify, FlushAck, Onward;
    if evs == [] {
      InitOwing<P>();
    } else {
      var k := |evs| - 1;
      RunReports(u, h, evs[..k]);
      FE.RunSound(u, h, evs[..k]);
      var e := FlowRun(End(InitFlow(), u), h, evs[..k]);
      match evs[k] {
        case Arrive(w) => ReceiveOwing(e, h, w);
        case RtxFires =>
          TimeoutGrows(e, h);
          OnwardKeeps(e.fl, RtxTimeout(e, h).fl);
        case AckFires =>
          FlushOnward(e.fl);
          OnwardKeeps(e.fl, FlushAck(e.fl));
        case UpperActs =>
          NotifyGrows(e, h, Ready);
          OnwardKeeps(e.fl, Notify(e, h, Ready).fl);
      }
    }
  }
}
