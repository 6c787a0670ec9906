/** What the steps of a flow achieve, beyond what they keep: admission, congestion control, and the
    processing of an accepted header (lib/flow.cc). */
module FlowLaws {
  import opened Words
  import opened FlowSpec
  import opened FlowInvariant
  import FE = FlowEvents
  import opened FlowReports
  import opened AckReports

  // ---------- admission ----------

  lemma AdmissionForward<P>(f: Flow<P>, word: nat, n: nat)
    requires RxOk(f) && n == Recover(word, f.rx.rxseq) < SEQ_LIMIT
    ensures n == f.rx.rxseq + SeqDiff(word, f.rx.rxseq)
    ensures Admissible(f.rx, SeqDiff(word, f.rx.rxseq), n) <==> n > f.rx.rxseq - MASK_BITS && n !in f.hist.accepted
  {
    FE.AckSeqNear(word, f.rx.rxseq, SEQ_LIMIT);
    hide SeqDiff, Recover, Distinct;
    var seqdiff := SeqDiff(word, f.rx.rxseq);
    if seqdiff <= 0 && -MASK_BITS < seqdiff { assert f.rx.rxseq - (-seqdiff) == n; }
  }

  /** A packet the peer sealed under some number is accepted exactly when its wire bits read back to
      that number, it is no more than 31 behind the newest, and it is new. */
  lemma AdmissionExact<U, P>(e: End<U, P>, h: Upper<U, P>, w: Wire<P>)
    requires FE.Sound(e.fl) && w.Wire? && w.seal < SEQ_LIMIT
    ensures w.seal in Receive(e, h, w).fl.hist.accepted
       <==> w.seal in e.fl.hist.accepted
            || (e.fl.rx.rxseq - MASK_BITS < w.seal && Recover(w.word, e.fl.rx.rxseq) == w.seal)
  {
    hide Process, Recover, SeqDiff, RxOk, Good, Admissible, Accept, Later;
    var seqdiff, n := SeqDiff(w.word, e.fl.rx.rxseq), Recover(w.word, e.fl.rx.rxseq);
    if n == w.seal {
      AdmissionForward(e.fl, w.word, n);
      if Admissible(e.fl.rx, seqdiff, n) {
        AdmissibleNear(e.fl.rx, seqdiff, n);
        AcceptOwing(e.fl, seqdiff, n);
        var e0 := e.(fl := Accept(e.fl, seqdiff, n));
        ProcessOwing(e0, h, n, w.pkt);
        LaterAccepted(e0.fl, Receive(e, h, w).fl, n);
      }
    }
  }

  lemma LaterAccepted<P>(f: Flow<P>, g: Flow<P>, n: int)
    requires Later(f, g) && n in f.hist.accepted
    ensures n in g.hist.accepted
  {
    PrefixHas(f.hist.accepted, g.hist.accepted, n);
  }

  // ---------- congestion control ----------

  /** The window parameters are untouched, up to the mark that the window is the limit. */
  predicate SameCc<P>(f: Flow<P>, g: Flow<P>) {
    g.cc == f.cc.(cwndlim := g.cc.cwndlim) && g.hist.cuts == f.hist.cuts
  }

  lemma {:induction false} ServeCc<P>(f: Flow<P>, size: P -> nat, reqs: seq<Req<P>>)
    ensures SameCc(f, Serve(f, size, reqs)) && Serve(f, size, reqs).hist.notes == f.hist.notes
    decreases |reqs|
  {
    if reqs != [] {
      match reqs[0] {
        case Send(p) => ServeCc(FlowTransmit(f, p, size(p)), size, reqs[1..]);
        case Probe => ServeCc(MayTransmit(f), size, reqs[1..]);
      }
    }
  }

  lemma NotifyCc<U, P>(e: End<U, P>, h: Upper<U, P>, x: Note)
    ensures SameCc(e.fl, Notify(e, h, x).fl) && Notify(e, h, x).fl.hist.notes == e.fl.hist.notes + [x]
  {
    ServeCc(WithNote(e.fl, x), h.size, h.note(e.up, x, e.fl.tx.txseq).1);
  }

  lemma {:induction false} SettleRangeCc<U, P>(e: End<U, P>, h: Upper<U, P>, n: int, lim: int, why: Cause)
    requires !why.ByLoss?
    ensures SameCc(e.fl, SettleRange(e, h, n, lim, why).fl)
    decreases lim - n
  {
    hide Notify;
    if n < lim {
      if PipeAt(e.fl.tx, n) { NotifyCc(e.(fl := e.fl.(tx := ClearPipe(e.fl.tx, n))), h, SettleNote(n, why)); }
      SettleRangeCc(Settle(e, h, n, why), h, n + 1, lim, why);
    }
  }

  /** A timeout goes back to slow start from the smallest window, up to half of what was in flight,
      and ends by offering to transmit. */
  lemma TimeoutWindow<U, P>(e: End<U, P>, h: Upper<U, P>)
    requires FE.Sound(e.fl)
    ensures RtxTimeout(e, h).fl.cc.cwnd == 2 <= e.fl.cc.cwnd
    ensures RtxTimeout(e, h).fl.cc.ssthresh == Max(Flying(e.fl.tx.txevts) / 2, 2)
    ensures RtxTimeout(e, h).fl.cc.recovseq == e.fl.cc.recovseq && RtxTimeout(e, h).fl.hist.cuts == e.fl.hist.cuts
    ensures RtxTimeout(e, h).fl.hist.notes != []
         && RtxTimeout(e, h).fl.hist.notes[|RtxTimeout(e, h).fl.hist.notes| - 1] == Ready
  {
    hide SettleRange, Notify, Flying, RxOk;
    SoundNumbers(e.fl);
    var c := e.fl.cc.(ssthresh := Max(Max(e.fl.tx.txfltcnt, 0) / 2, CWND_MIN), cwnd := CWND_MIN);
    var e1 := e.(fl := e.fl.(cc := c));
    SettleRangeCc(e1, h, e.fl.tx.txevtseq, e.fl.tx.txseq, ByTimeout);
    NotifyCc(SettleRange(e1, h, e.fl.tx.txevtseq, e.fl.tx.txseq, ByTimeout), h, Ready);
  }

  lemma SoundNumbers<P>(f: Flow<P>)
    requires FE.Sound(f)
    ensures f.tx.txfltcnt == Flying(f.tx.txevts) && CwndOk(f.cc)
  {
    CoreRecords(f);
  }

  /** A loss beyond the last recovery point halves the window; any other loss leaves it alone. */
  lemma CutLaw<U, P>(e: End<U, P>, h: Upper<U, P>, n: int)
    ensures PipeAt(e.fl.tx, n) && n > e.fl.cc.recovseq ==>
      && Settle(e, h, n, ByLoss).fl.cc.cwnd == Settle(e, h, n, ByLoss).fl.cc.ssthresh == Max(e.fl.cc.cwnd / 2, 2)
      && Settle(e, h, n, ByLoss).fl.cc.recovseq == e.fl.tx.txseq
      && Settle(e, h, n, ByLoss).fl.hist.cuts == e.fl.hist.cuts + [Cut(n, e.fl.tx.txseq)]
    ensures !PipeAt(e.fl.tx, n) || n <= e.fl.cc.recovseq ==> SameCc(e.fl, Settle(e, h, n, ByLoss).fl)
  {
    hide Notify;
    if PipeAt(e.fl.tx, n) { NotifyCc(e.(fl := CcMissed(e.fl.(tx := ClearPipe(e.fl.tx, n)), n)), h, Missed(n)); }
  }

  /** Losing a packet transmitted after the last cut always cuts the window. */
  lemma {:induction false} LossCuts<U, P>(e: End<U, P>, h: Upper<U, P>, lo: int, lim: int, n: int)
    requires Core(e.fl) && CcOk(e.fl) && lim <= e.fl.tx.txseq
    ensures e.fl.hist.cuts <= SettleRange(e, h, lo, lim, ByLoss).fl.hist.cuts
    ensures lo <= n < lim && PipeAt(e.fl.tx, n) && n > e.fl.cc.recovseq ==>
      |e.fl.hist.cuts| < |SettleRange(e, h, lo, lim, ByLoss).fl.hist.cuts|
    decreases lim - lo
  {
    hide Core, CcOk, Settle, PipeAt, Steady;
    if lo < lim {
      CutLaw(e, h, lo);
      SettleCore(e, h, lo, ByLoss);
      SteadyFacts(e.fl, Settle(e, h, lo, ByLoss).fl);
      SettleEffect(e, h, lo, ByLoss);
      LossCuts(Settle(e, h, lo, ByLoss), h, lo + 1, lim, n);
    }
  }

  /** Growth, exactly: slow start by one per packet newly counted, up to ssthresh; then one per round
      trip; nothing while something other than the window is the limit. */
  lemma GrowthExact<P>(f: Flow<P>, newpackets: nat, ackseq: int)
    requires CwndOk(f.cc)
    ensures !f.cc.cwndlim ==> GrowWindow(f, newpackets, ackseq).cc.cwnd == f.cc.cwnd
    ensures f.cc.cwndlim && f.cc.cwnd < f.cc.ssthresh && ackseq < f.cc.markseq ==>
      GrowWindow(f, newpackets, ackseq).cc.cwnd == Min(Min(f.cc.cwnd + newpackets, f.cc.ssthresh), CWND_MAX)
    ensures f.cc.cwndlim && f.cc.cwnd < f.cc.ssthresh && ackseq >= f.cc.markseq ==>
      GrowWindow(f, newpackets, ackseq).cc.cwnd == Min(Min(f.cc.cwnd + newpackets, f.cc.ssthresh) + 1, CWND_MAX)
    ensures f.cc.cwndlim && f.cc.cwnd >= f.cc.ssthresh ==>
      GrowWindow(f, newpackets, ackseq).cc.cwnd == Min(f.cc.cwnd + (if ackseq >= f.cc.markseq then 1 else 0), CWND_MAX)
    ensures GrowWindow(f, newpackets, ackseq).cc.markseq == if ackseq >= f.cc.markseq then f.tx.txseq else f.cc.markseq
  {
  }

  /** After an acknowledgment that counts something, the layer above is offered the room there is. */
  lemma RoomOffered<U, P>(e: End<U, P>, h: Upper<U, P>, newpackets: nat)
    requires newpackets > 0
    ensures e.fl.cc.cwnd > e.fl.tx.txfltcnt ==> MoreIfAllowed(e, h, newpackets).fl.hist.notes == e.fl.hist.notes + [Ready]
    ensures e.fl.cc.cwnd <= e.fl.tx.txfltcnt ==> MoreIfAllowed(e, h, newpackets).fl.cc.cwndlim
  {
    hide Notify;
    NotifyCc(e, h, Ready);
  }

  /** A look at the window when it is full marks it as the limit. */
  lemma ProbeMarks<P>(f: Flow<P>, size: P -> nat)
    ensures Serve(f, size, [Req.Probe]).cc.cwndlim <==> f.cc.cwndlim || f.cc.cwnd <= f.tx.txfltcnt
  {
    var none: seq<Req<P>> := [];
    assert [Req.Probe][1..] == none;
  }

  // ---------- an accepted header is processed ----------

  lemma AfterAcks<U, P>(e: End<U, P>, h: Upper<U, P>, n: nat, pkt: Packet<P>)
    requires Recover(pkt.ackword, e.fl.tx.txackseq) < e.fl.tx.txseq
    ensures Later(TakeAcks(e, h, pkt.ackword, n).0.fl, Process(e, h, n, pkt).fl)
  {
    hide TakeAcks, GrowWindow, Deliver, MoreIfAllowed, Later, Onward, Recover;
    var ackseq := Recover(pkt.ackword, e.fl.tx.txackseq);
    var r := TakeAcks(e, h, pkt.ackword, n);
    GrowWindowGrows(r.0.fl, r.1, ackseq);
    var e2 := r.0.(fl := GrowWindow(r.0.fl, r.1, ackseq));
    OnwardLater(r.0.fl, e2.fl);
    DeliverOwing(e2, h, n, pkt.body);
    var e3 := Deliver(e2, h, n, pkt.body);
    LaterTrans(r.0.fl, e2.fl, e3.fl);
    MoreGrows(e3, h, r.1);
    OnwardLater(e3.fl, MoreIfAllowed(e3, h, r.1).fl);
    LaterTrans(r.0.fl, e3.fl, MoreIfAllowed(e3, h, r.1).fl);
  }

  lemma AfterAdvance<U, P>(e: End<U, P>, h: Upper<U, P>, word: nat, rxseq: int)
    requires SeqDiff(word, e.fl.tx.txackseq) > 0
    ensures Later(Advance(e, h, e.fl.tx.txackseq + SeqDiff(word, e.fl.tx.txackseq), SeqDiff(word, e.fl.tx.txackseq),
                          AckCount(word), rxseq).fl, TakeAcks(e, h, word, rxseq).0.fl)
  {
    hide Advance, Stragglers, SeqDiff, Onward;
    var ackct, ackdiff := AckCount(word), SeqDiff(word, e.fl.tx.txackseq);
    var e1 := Advance(e, h, e.fl.tx.txackseq + ackdiff, ackdiff, ackct, rxseq);
    StragglersGrows(e1, h, ackct, 0, rxseq, NewCount(ackdiff, ackct));
    OnwardLater(e1.fl, TakeAcks(e, h, word, rxseq).0.fl);
  }

  /** The header of an accepted packet that acknowledges something newer counts every packet it newly
      names, and reports those that were still in flight. */
  lemma HeaderCounts<U, P>(e: End<U, P>, h: Upper<U, P>, n: nat, pkt: Packet<P>, ackseq: nat, k: int)
    requires Good(e.fl) && e.fl.tx.txseq <= SEQ_LIMIT
    requires e.fl.tx.txackseq < ackseq == Recover(pkt.ackword, e.fl.tx.txackseq) < e.fl.tx.txseq
    requires e.fl.tx.txackseq < k && FE.Named(pkt.ackword, ackseq, k)
    ensures k in Process(e, h, n, pkt).fl.hist.credited
    ensures PipeAt(e.fl.tx, k) ==> Acked(k, n) in Process(e, h, n, pkt).fl.hist.notes
  {
    hide Good, Advance, TakeAcks, Process, SeqDiff, Recover, AckCount, Later, NumRange, RollMask, Progress, PipeAt;
    FE.AckInWindow(e.fl, pkt.ackword, ackseq);
    var ackct, ackdiff := AckCount(pkt.ackword), SeqDiff(pkt.ackword, e.fl.tx.txackseq);
    var e1 := Advance(e, h, ackseq, ackdiff, ackct, n);
    AdvanceCore(e, h, ackseq, ackdiff, ackct, n);
    AfterAdvance(e, h, pkt.ackword, n);
    AfterAcks(e, h, n, pkt);
    var g := Process(e, h, n, pkt).fl;
    LaterTrans(e1.fl, TakeAcks(e, h, pkt.ackword, n).0.fl, g);
    assert k in NumRange(ackseq - NewCount(ackdiff, ackct) + 1, ackseq + 1);
    LaterHas(e1.fl, g, k);
    if PipeAt(e.fl.tx, k) {
      AdvanceReports(e, h, ackseq, ackdiff, ackct, n, k);
      LaterTold(e1.fl, g, Acked(k, n));
    }
  }

  lemma LaterHas<P>(f: Flow<P>, g: Flow<P>, k: int)
    requires Later(f, g) && k in f.hist.credited
    ensures k in g.hist.credited
  {
    PrefixHas(f.hist.credited, g.hist.credited, k);
  }

  lemma LaterTold<P>(f: Flow<P>, g: Flow<P>, x: Note)
    requires Later(f, g) && x in f.hist.notes
    ensures x in g.hist.notes
  {
    PrefixHas(f.hist.notes, g.hist.notes, x);
  }

  // ---------- the layer above ----------

  /** What flowReceive says about acknowledging is done. */
  lemma DeliverAcks<U, P>(e: End<U, P>, h: Upper<U, P>, n: nat, body: Body<P>)
    ensures h.recv(e.up, n, body).1 == AckSoon ==>
      n in Deliver(e, h, n, body).fl.hist.promised && n in Deliver(e, h, n, body).fl.hist.acknowledged
    ensures h.recv(e.up, n, body).1 == AckQuietly ==>
      n in Deliver(e, h, n, body).fl.hist.acknowledged && Deliver(e, h, n, body).fl.hist.promised == e.fl.hist.promised
    ensures h.recv(e.up, n, body).1 == Ignore ==>
      Deliver(e, h, n, body).fl.hist.acknowledged == e.fl.hist.acknowledged
  {
    hide Notify, Acknowledge, Later, Owing;
    var r := h.recv(e.up, n, body);
    AcknowledgeHistory(e.fl, n, false);
    var quiet := if r.1 == AckQuietly then Acknowledge(e.fl, n, false) else e.fl;
    NotifyGrows(End(quiet, r.0), h, Ready);
    AcknowledgeHistory(Notify(End(quiet, r.0), h, Ready).fl, n, true);
  }

  /** The packets an upcall asks for, in order. */
  function Payloads<P>(reqs: seq<Req<P>>): seq<P> {
    if reqs == [] then [] else (if reqs[0].Send? then [reqs[0].p] else []) + Payloads(reqs[1..])
  }

  /** They are all sent, in that order, and nothing else is. */
  lemma {:induction false} ServeSends<P>(f: Flow<P>, size: P -> nat, reqs: seq<Req<P>>, i: nat)
    ensures |Serve(f, size, reqs).hist.sent| == |f.hist.sent| + |Payloads(reqs)|
    ensures f.hist.sent <= Serve(f, size, reqs).hist.sent
    ensures i < |Payloads(reqs)| ==> Serve(f, size, reqs).hist.sent[|f.hist.sent| + i].body == Data(Payloads(reqs)[i])
    decreases |reqs|
  {
    hide FlowTransmit, MayTransmit;
    if reqs != [] {
      match reqs[0] {
        case Send(p) =>
          OneSent(f, p, size(p));
          var g := FlowTransmit(f, p, size(p));
          ServeSends(g, size, reqs[1..], if i == 0 then 0 else i - 1);
          assert Serve(f, size, reqs).hist.sent[|f.hist.sent|] == g.hist.sent[|f.hist.sent|];
          assert Payloads(reqs) == [p] + Payloads(reqs[1..]);
        case Probe =>
          NoneSent(f);
          ServeSends(MayTransmit(f), size, reqs[1..], i);
          assert Payloads(reqs) == Payloads(reqs[1..]);
      }
    }
  }

  lemma OneSent<P>(f: Flow<P>, p: P, size: nat)
    ensures |FlowTransmit(f, p, size).hist.sent| == |f.hist.sent| + 1 && f.hist.sent <= FlowTransmit(f, p, size).hist.sent
    ensures FlowTransmit(f, p, size).hist.sent[|f.hist.sent|].body == Data(p)
  {
  }

  lemma NoneSent<P>(f: Flow<P>)
    ensures MayTransmit(f).hist.sent == f.hist.sent
  {
  }

  /** A packet that is processed, and not ignored by the layer above as it stands after the
      acknowledgments in its header, is acknowledged. */
  lemma ProcessAcks<U, P>(e: End<U, P>, h: Upper<U, P>, n: nat, pkt: Packet<P>)
    requires Recover(pkt.ackword, e.fl.tx.txackseq) < e.fl.tx.txseq
    requires h.recv(TakeAcks(e, h, pkt.ackword, n).0.up, n, pkt.body).1 != Ignore
    ensures n in Process(e, h, n, pkt).fl.hist.acknowledged
  {
    hide TakeAcks, GrowWindow, Deliver, MoreIfAllowed, Recover, Onward;
    var r := TakeAcks(e, h, pkt.ackword, n);
    var e2 := r.0.(fl := GrowWindow(r.0.fl, r.1, Recover(pkt.ackword, e.fl.tx.txackseq)));
    DeliverAcks(e2, h, n, pkt.body);
    MoreGrows(Deliver(e2, h, n, pkt.body), h, r.1);
    OnwardSame(Deliver(e2, h, n, pkt.body).fl, Process(e, h, n, pkt).fl);
  }
}
