/** Where the code stops meeting its promises: for each, an input that shows it and the exact
    condition under which the promise holds. */
module Limits {
  import opened Words
  import opened FlowSpec
  import opened FlowInvariant
  import FE = FlowEvents
  import opened StreamSend
  import opened Connection
  import opened ConnectionInvariant
  import CT = ConnectionTheorem
  import Recv = StreamReceive
  import Reassembly
  import Reading
  import Messages
  import StreamObject

  // ---------- acknowledge() takes a quint16 ----------

  /** Everything the receiver reports or is about to report was acknowledged. */
  ghost predicate ReportsTrue(f: Flow<Payload>) {
    AckStateOk(f) && HeadersOk(f)
  }

  /** The low 16 bits of the number are as good as the number itself, or are not reported. */
  predicate ReportableAs(f: Flow<Payload>, pktseq: nat, sendack: bool) {
    || pktseq < WORD16
    || pktseq % WORD16 in f.hist.acknowledged
    || (Signed32(pktseq % WORD16 - f.rx.rxackseq) < 0 && !sendack)
  }

  lemma FlushTrue(f: Flow<Payload>)
    requires ReportsTrue(f)
    ensures ReportsTrue(FlushAck(f)) && FlushAck(f).hist.acknowledged == f.hist.acknowledged
    ensures FlushAck(f).rx.rxackseq == f.rx.rxackseq && FlushAck(f).rx.rxackct == f.rx.rxackct
  {
    hide RunAcked, PackAck;
    var g := f.(rx := f.rx.(rxunacked := 0));
    PackedRun(f.rx.rxackseq, f.rx.rxackct, f.hist.acknowledged);
    CT.BareHeaders(g, PackAck(f.rx.rxackseq, f.rx.rxackct));
  }

  lemma BareTrue(f: Flow<Payload>, n: nat)
    requires ReportsTrue(f) && n < WORD16
    ensures ReportsTrue(TransmitAck(f, n, 0)) <==> n in f.hist.acknowledged
  {
    hide AckCount, PackAck;
    PackAckFields(n, 0);
    var g := TransmitAck(f, n, 0);
    var last := g.hist.sent[|g.hist.sent| - 1];
    assert last.ackword == PackAck(n, 0);
    if n in f.hist.acknowledged {
      PackedRun(n, 0, f.hist.acknowledged);
      CT.BareHeaders(f, PackAck(n, 0));
    } else {
      assert !RunAcked(last.ackword, g.hist.acknowledged);
    }
  }

  lemma AckSeqSmall(f: Flow<Payload>, n: nat)
    requires AckStateOk(f) && n < WORD16
    ensures Signed32(n - f.rx.rxackseq) == n - f.rx.rxackseq
    ensures f.rx.rxackseq in f.hist.acknowledged
  {
  }

  lemma StepTrue(f: Flow<Payload>, n: nat)
    requires ReportsTrue(f) && n == f.rx.rxackseq + 1 < SEQ24
    ensures ReportsTrue(f.(rx := f.rx.(rxackseq := n, rxackct := Min(f.rx.rxackct + 1, ACKCT_MAX), rxunacked := f.rx.rxunacked + 1)))
       <==> n in f.hist.acknowledged
  {
    hide RunAcked;
  }

  lemma JumpTrue(f: Flow<Payload>, n: nat)
    requires ReportsTrue(f) && n < SEQ24
    ensures ReportsTrue(f.(rx := f.rx.(rxackseq := n, rxackct := 0))) <==> n in f.hist.acknowledged
  {
    hide RunAcked;
  }

  lemma UntrueStays(f: Flow<Payload>)
    requires !AckStateOk(f)
    ensures !ReportsTrue(FlushAck(f))
  {
    hide RunAcked, PackAck;
  }

  lemma UntrueStaysBare(f: Flow<Payload>, n: nat)
    requires !AckStateOk(f)
    ensures !ReportsTrue(TransmitAck(f, n, 0))
  {
    hide RunAcked, PackAck;
  }

  /** acknowledge() keeps the reports true exactly for numbers it can carry. */
  lemma AcknowledgeExact(f0: Flow<Payload>, pktseq: nat, sendack: bool)
    requires ReportsTrue(f0)
    ensures ReportsTrue(Acknowledge(f0, pktseq, sendack)) <==> ReportableAs(f0, pktseq, sendack)
  {
    hide ReportsTrue, AckStateOk, FlushAck, TransmitAck, Signed32;
    var n := pktseq % WORD16;
    var f := Noted(f0, pktseq, sendack);
    NotedTrue(f0, pktseq, sendack);
    ReportParts(f);
    ReportParts(f0);
    AckSeqSmall(f, n);
    AckSeqSmall(f0, n);
    FlushTrue(f);
    var g := FlushAck(f);
    if n == f.rx.rxackseq + 1 {
      var r := f.rx.(rxackseq := n, rxackct := Min(f.rx.rxackct + 1, ACKCT_MAX), rxunacked := f.rx.rxunacked + 1);
      StepTrue(f, n);
      OnlyState(f, f.(rx := r));
      if ReportsTrue(f.(rx := r)) { FlushTrue(f.(rx := r)); } else { UntrueStays(f.(rx := r)); }
    } else if n > f.rx.rxackseq {
      var g1 := g.(rx := g.rx.(rxackseq := n, rxackct := 0));
      JumpTrue(g, n);
      OnlyState(g, g1);
      if ReportsTrue(g1) { BareTrue(g1, n); } else { UntrueStaysBare(g1, n); }
    } else if n < f.rx.rxackseq {
      BareTrue(g, n);
    }
  }

  lemma ReportParts(f: Flow<Payload>)
    requires ReportsTrue(f)
    ensures AckStateOk(f)
  {
  }

  /** Only the receive counters can be at fault when the headers are those of a true state. */
  lemma OnlyState(f: Flow<Payload>, g: Flow<Payload>)
    requires ReportsTrue(f) && g == f.(rx := g.rx)
    ensures ReportsTrue(g) <==> AckStateOk(g)
  {
    hide RunAcked;
  }

  lemma NotedTrue(f: Flow<Payload>, pktseq: nat, sendack: bool)
    requires ReportsTrue(f)
    ensures ReportsTrue(Noted(f, pktseq, sendack))
  {
    hide RunAcked;
    CT.HeadersMonotone(f, pktseq, sendack);
  }

  /** Packet 65537 is acknowledged as packet 1, which never arrived. */
  lemma AcknowledgeWraps()
    ensures Acknowledge(InitFlow<Payload>(), 65537, true).rx.rxackseq == 1
    ensures Acknowledge(InitFlow<Payload>(), 65537, true).hist.acknowledged == {0, 65537}
  {
    assert Signed32(1) == 1;
  }

  // ---------- the straggler loop trusts the header ----------

  /** The straggler loop, from turn i on and with all its upcalls, comes to a bit whose record would
      lie before number 0. */
  ghost predicate Strays<U, P>(e: End<U, P>, h: Upper<U, P>, i: nat, ackct: nat, back: nat, rxseq: int)
    decreases ackct + 1 - i
  {
    && i <= ackct && back + i < MASK_BITS
    && if back + i in e.fl.tx.txackmask then Strays(e, h, i + 1, ackct, back, rxseq)
       else back + i > e.fl.tx.txackseq || Strays(StraggleTurn(e, h, back + i, rxseq), h, i + 1, ackct, back, rxseq)
  }

  /** Upcalls do not matter: the mask and txackseq at the start decide. */
  lemma {:induction false} StraysWhen<U, P>(e: End<U, P>, h: Upper<U, P>, i: nat, ackct: nat, back: nat, rxseq: int)
    requires Good(e.fl)
    ensures Strays(e, h, i, ackct, back, rxseq) <==> LooksBeforeZero(e.fl.tx, i, ackct, back)
    decreases ackct + 1 - i
  {
    hide Good, StraggleTurn;
    if i <= ackct && back + i < MASK_BITS {
      var bit := back + i;
      if bit in e.fl.tx.txackmask {
        StraysWhen(e, h, i + 1, ackct, back, rxseq);
        LooksLater(e.fl.tx, e.fl.tx, i, ackct, back);
      } else if bit <= e.fl.tx.txackseq {
        StraggleStep(e, h, bit, rxseq);
        StraysWhen(StraggleTurn(e, h, bit, rxseq), h, i + 1, ackct, back, rxseq);
        LooksLater(e.fl.tx, StraggleTurn(e, h, bit, rxseq).fl.tx, i, ackct, back);
      }
    }
  }

  /** No bit above txackseq is ever set. */
  lemma MaskTop<P>(f: Flow<P>, bit: nat)
    requires MaskOk(f) && f.tx.txackseq < bit < MASK_BITS
    ensures bit !in f.tx.txackmask
  {
  }

  lemma LooksExact<P>(f: Flow<P>, ackct: nat, back: nat)
    requires MaskOk(f) && back <= f.tx.txackseq
    ensures LooksBeforeZero(f.tx, 0, ackct, back) <==> ackct > f.tx.txackseq - back && f.tx.txackseq < MASK_BITS - 1
  {
    hide MaskOk;
    if ackct > f.tx.txackseq - back && f.tx.txackseq < MASK_BITS - 1 {
      MaskTop(f, f.tx.txackseq + 1);
    }
  }

  /** For an acknowledged number ackseq = txackseq - back: the code looks for a record before number 0
      exactly when its guard lets it into the loop, the header counts more packets than its number,
      and the mask reaches back past number 0. */
  lemma StragglerIndexExact<U, P>(e: End<U, P>, h: Upper<U, P>, ackct: nat, back: nat, rxseq: int)
    requires Good(e.fl) && ackct <= ACKCT_MAX && back <= e.fl.tx.txackseq
    ensures HasStragglers(e.fl.tx, ackct) && Strays(e, h, 0, ackct, back, rxseq)
       <==> HasStragglers(e.fl.tx, ackct) && ackct > e.fl.tx.txackseq - back && e.fl.tx.txackseq < MASK_BITS - 1
  {
    hide Core, CcOk, Window, MaskOk, Strays, LooksBeforeZero, HasStragglers;
    StraysWhen(e, h, 0, ackct, back, rxseq);
    LooksExact(e.fl, ackct, back);
  }

  /** The same for a whole header, before it is processed. */
  lemma HeaderExact<P>(f: Flow<P>, word: nat, ackseq: nat)
    requires Good(f) && f.tx.txseq <= SEQ_LIMIT && ackseq == Recover(word, f.tx.txackseq) < f.tx.txseq
    ensures !FE.HeaderSafe(f, word)
       <==> HasStragglers(FE.Rolled(f.tx, word), AckCount(word)) && AckCount(word) > ackseq
            && FE.Rolled(f.tx, word).txackseq < MASK_BITS - 1
  {
    hide Core, CcOk, Window, MaskOk, LooksBeforeZero, HasStragglers, SeqDiff, Recover, RollMask, AckCount, NumRange;
    FE.AckInWindow(f, word, ackseq);
    var ackdiff := SeqDiff(word, f.tx.txackseq);
    if ackdiff > 0 {
      var g := RollAck(f, ackseq, ackdiff, NewCount(ackdiff, AckCount(word)));
      RollAckOk(f, ackdiff, NewCount(ackdiff, AckCount(word)));
      LooksExact(g, AckCount(word), 0);
      LooksSame(g.tx, FE.Rolled(f.tx, word), AckCount(word), 0);
    } else {
      LooksExact(f, AckCount(word), -ackdiff);
    }
  }

  lemma LooksSame(t: Tx, t': Tx, ackct: nat, back: nat)
    requires t'.txackseq == t.txackseq && t'.txackmask == t.txackmask
    ensures LooksBeforeZero(t', 0, ackct, back) <==> LooksBeforeZero(t, 0, ackct, back)
  {
  }

  /** Packets 1 and 2 were sent and 2 alone acknowledged.  A header that acknowledges 2 and counts
      three packets before it makes the code look for record -1. */
  lemma StragglerWitness(t: Tx)
    requires t.txackseq == 2 && t.txackmask == RollMask(InitFlow<Payload>().tx.txackmask, 2, 1)
    ensures t.txackmask == {0, 2} && HasStragglers(t, 3) && LooksBeforeZero(t, 0, 3, 0)
  {
    assert Shl({0}, 2) == {2} && Ones(1) == {0};
    assert 1 in Ones(3) && 1 !in t.txackmask && 3 !in t.txackmask;
  }

  /** On a fresh flow a header that acknowledges 0 and counts one more packet is kept out by the guard. */
  lemma GuardWitness<U, P>(u: U, h: Upper<U, P>, rxseq: int, cnt: nat)
    ensures LooksBeforeZero(InitFlow<P>().tx, 0, 1, 0)
    ensures Stragglers(End(InitFlow(), u), h, 1, 0, rxseq, cnt) == (End(InitFlow(), u), cnt)
  {
    assert Ones(1) == {0};
    assert 1 !in InitFlow<P>().tx.txackmask;
  }

  // ---------- zero-length writes ----------

  /** A write keeps one live copy per position exactly when its position is not already in use. */
  lemma WriteExact(s: Sender, data: seq<Byte>, flags: Flags)
    requires OneCopy(s)
    ensures OneCopy(WriteSegment(s, data, flags)) <==> s.tasn !in s.twait
  {
    hide Enqueue, Ascending, FlightDistinct, Flight;
    var sg := Segment(s.tasn, data, flags);
    if s.tasn !in s.twait {
      WriteOneCopy(s, sg);
    } else {
      EnqueueHas(s.tqueue, sg);
      if s.tasn in Queued(s.tqueue) {
        EnqueueTwice(s.tqueue, sg);
      }
    }
  }

  lemma QueuedAppend(q: seq<Segment>, x: Segment)
    ensures Queued(q + [x]) == Queued(q) + {x.tsn}
  {
  }

  lemma {:induction false} QueuedCard(q: seq<Segment>)
    ensures |Queued(q)| <= |q|
    ensures Ascending(q) ==> |Queued(q)| == |q|
  {
    if q != [] {
      var init, last := q[..|q| - 1], q[|q| - 1];
      assert q == init + [last];
      QueuedAppend(init, last);
      QueuedCard(init);
      assert Ascending(q) ==> last.tsn !in Queued(init);
    }
  }

  /** Two queued segments at one position are not in strict order. */
  lemma EnqueueTwice(q: seq<Segment>, sg: Segment)
    requires sg.tsn in Queued(q)
    ensures !Ascending(Enqueue(q, sg))
  {
    EnqueueHas(q, sg);
    assert Queued(Enqueue(q, sg)) == Queued(q);
    QueuedCard(q);
    QueuedCard(Enqueue(q, sg));
  }

  /** An empty message, then one byte: the acknowledgment of the empty segment discards the byte,
      which was never sent. */
  lemma EmptyWriteLoses(s0: Sender, s1: Sender, s2: Sender)
    requires s0 == StreamObject.WriteAll(StreamObject.WriteAll(InitSender, [], Flags(false, true, false)), [7], NO_FLAGS)
    requires s1 == Transmit(s0, 1) && s2 == StreamSend.Acked(s1, 1)
    ensures s2.written == [7] && s2.twait == {} && s2.ackwait == map[]
    ensures Transmitted(s0) == [Segment(0, [], Flags(true, true, false))] && Transmitted(s2) == []
    ensures Transmit(s2, 2).tqueue == []
  {
    var x, y := Segment(0, [], Flags(true, true, false)), Segment(0, [7], Flags(true, false, false));
    assert Enqueue([], x) == [x];
    assert Enqueue([x], y) == [x, y];
    assert s0.tqueue == [x, y] && s0.twait == {0};
    assert Collected([x, y], {0}) == [x, y];
    assert [x, y][1..] == [y] && [x, y][..1] == [x];
    assert s1.tqueue == [y] && s1.ackwait == map[1 := Pending(x, false)];
    assert s2.twait == {};
    assert [y][1..] == [];
    assert Collected([y], {}) == Collected([], {}) == [];
  }

  // ---------- reading never notices the end of the stream ----------

  /** A closing segment with bytes in it ends a message at exactly its own end. */
  lemma CloseEndsMessage(r: Recv.Receiver, cut: seq<Segment>, S: seq<Byte>)
    requires Messages.Faithful(r, S) && !r.endread && Messages.WellCut(cut, S) && (forall y :: y in r.arrived ==> y in cut)
    requires r.rsegs != [] && r.rsegs[0].flags.close && r.ravail > 0
    ensures r.rmsgsize != [] && r.rmsgsize[0] == r.rsegs[0].Size()
  {
    hide Reassembly.InOrder, Reassembly.Balanced, Reassembly.Aligned, Messages.WellCut, Reassembly.Volume, Reassembly.Sum,
      Messages.Boundary, Messages.MarksSound, Messages.MarksFull, Messages.EmptySeen, Reassembly.CloseSeen, Reassembly.HoldsAll;
    Reading.OkParts(r, S);
    OnlyHead(r);
    CloseHere(r, S);
    Messages.CloseAtEnd(r, cut, S);
    Messages.Reach(r, S);
    ClosingMark(r, cut, S);
    UnreadBytes(r, S);
    Messages.BoundariesExact(r, cut, S, r.rsn);
    FirstIsAll(r, S);
  }

  lemma OnlyHead(r: Recv.Receiver)
    requires Reading.CloseLast(r.rsegs) && Reassembly.Balanced(r) && r.rsegs != [] && r.rsegs[0].flags.close
    ensures r.ravail == r.rsegs[0].Size()
  {
    hide Reassembly.Volume, Reassembly.Sum;
    Reassembly.VolumeTail(r.rsegs);
    assert r.rsegs[0 + 1..] == r.rsegs[1..];
  }

  lemma CloseHere(r: Recv.Receiver, S: seq<Byte>)
    requires Reassembly.ReceiverOk(r, S) && r.rsegs != [] && r.rsegs[0].flags.close
    ensures Reassembly.CloseSeen(r)
  {
    hide Reassembly.InOrder, Reassembly.Balanced, Reassembly.Aligned, Reassembly.CloseSeen, Reassembly.HoldsAll;
    assert Reassembly.HasClose(r.rsegs);
  }

  lemma ClosingMark(r: Recv.Receiver, cut: seq<Segment>, S: seq<Byte>)
    requires Reassembly.CloseSeen(r) && Messages.WellCut(cut, S) && (forall y :: y in r.arrived ==> y in cut) && r.rsn == |S|
    ensures Messages.MarkedAt(r.arrived, r.rsn)
  {
    var sg :| sg in r.arrived && sg.flags.close && sg.End() <= r.rsn;
    assert Messages.Ends(sg.flags) && sg.End() == r.rsn;
  }

  lemma UnreadBytes(r: Recv.Receiver, S: seq<Byte>)
    requires Reassembly.InOrder(r, S) && Reassembly.Balanced(r) && !r.endread
    ensures |r.readout| + r.ravail == r.rsn
  {
    Messages.Reach(r, S);
  }

  lemma FirstIsAll(r: Recv.Receiver, S: seq<Byte>)
    requires Reassembly.ReceiverOk(r, S) && r.rsegs != [] && r.ravail == r.rsegs[0].Size()
    requires Messages.Boundary(r, r.rsn) && |r.readout| + r.ravail == r.rsn
    ensures r.rmsgsize != [] && r.rmsgsize[0] == r.rsegs[0].Size()
  {
    hide Reassembly.InOrder, Reassembly.Sum, Reassembly.Volume, Reassembly.Aligned;
    Reading.OkParts(r, S);
    Reading.HeadFits(r);
    var j :| 0 < j <= |r.rmsgsize| && |r.readout| + Reassembly.Sum(r.rmsgsize[..j]) == r.rsn;
    Messages.SumAfterFirst(r.rmsgsize, j);
  }

  /** readData() tests the close flag only after the break at a message boundary, and a closing
      segment always ends a message, so no read ever moves the stream to its end. */
  lemma {:induction false} ReadNeverEnds(r: Recv.Receiver, max: int, cut: seq<Segment>, S: seq<Byte>)
    requires Messages.Faithful(r, S) && Messages.WellCut(cut, S) && forall y :: y in r.arrived ==> y in cut
    ensures Recv.ReadData(r, max).endread == r.endread
    decreases |r.rsegs|
  {
    hide Messages.Marks, Reassembly.ReceiverOk, Messages.WellCut, Reassembly.CloseSeen;
    if max <= 0 || r.ravail <= 0 || r.rsegs == [] || !r.rsegs[0].Valid() || r.rsegs[0].Size() > max {
    } else {
      Messages.ReadOneFaithful(r, S);
      Reading.ReadOneKeeps(r, S);
      if r.rsegs[0].flags.close { CloseEndsMessage(r, cut, S); }
      if Recv.ReadOne(r).1 && |Recv.ReadOne(r).0.rsegs| < |r.rsegs| {
        ReadNeverEnds(Recv.ReadOne(r).0, max - r.rsegs[0].Size(), cut, S);
      }
    }
  }

  /** One byte sent with the close flag, received and read: everything is read and the stream is
      still open. */
  lemma EndNotSeen(r: Recv.Receiver)
    requires r == Recv.ReadData(Recv.RxData(Recv.InitReceiver, Segment(0, [7], Flags(true, false, true))), 1)
    ensures r.readout == [7] && r.rsegs == [] && r.ravail == 0 && !r.endread
  {
    var sg := Segment(0, [7], Flags(true, false, true));
    var x := Recv.RxSegment(0, [7], 0, sg.flags);
    var r1 := Recv.RxData(Recv.InitReceiver, sg);
    assert x.Bytes() == [7];
    assert r1.rsegs == [x] && r1.rmsgsize == [1] && r1.ravail == 1 && !r1.endread;
    assert Recv.ReadOne(r1).0.readout == [7] && Recv.ReadOne(r1).1 == false;
  }

  /** ... until the closing segment arrives once more. */
  lemma EndSeenOnRepeat(r: Recv.Receiver)
    requires r == Recv.ReadData(Recv.RxData(Recv.InitReceiver, Segment(0, [7], Flags(true, false, true))), 1)
    ensures Recv.RxData(r, Segment(0, [7], Flags(true, false, true))).endread
  {
    EndNotSeen(r);
    var r1 := Recv.RxData(Recv.InitReceiver, Segment(0, [7], Flags(true, false, true)));
    assert r1.rsegs == [Recv.RxSegment(0, [7], 0, Flags(true, false, true))] && r1.rmsgsize == [1];
    assert r.rsn == 1 && r.rahead == [];
  }

  // ---------- when the end of the stream is noticed ----------

  /** Pulling from the reorder list only adds bytes to read. */
  lemma {:induction false} PullAdds(r: Recv.Receiver, closed: bool)
    ensures r.ravail <= Recv.Pull(r, closed).0.ravail && Recv.Pull(r, closed).0.endread == r.endread
    decreases |r.rahead|
  {
    if r.rahead != [] && r.rahead[0].rsn <= r.rsn {
      if Recv.Useful(r.rsn, r.rahead[0]) {
        PullAdds(Reassembly.PullOne(r), closed || r.rahead[0].flags.close);
      } else {
        PullAdds(Reassembly.Dropped(r), closed);
      }
    }
  }

  /** rxData() ends the stream exactly when a closing segment ends where the stream stands and nothing
      is left to read; together with ReadNeverEnds, that is the only way a stream ends. */
  lemma EndExact(r: Recv.Receiver, sg: Segment, S: seq<Byte>)
    requires Reassembly.ReceiverOk(r, S)
    ensures Recv.RxData(r, sg).endread <==> sg.flags.close && sg.End() == r.rsn && r.ravail == 0
  {
    hide Reassembly.InOrder, Reassembly.Balanced, Reassembly.Aligned, Reassembly.HoldsAll, Reassembly.Filled;
    OpenAvail(r, S);
    var r1 := r.(arrived := r.arrived + [sg]);
    var x := Recv.RxSegment(sg.tsn, sg.data, 0, sg.flags);
    if sg.tsn <= r.rsn && Recv.Useful(r.rsn, x) {
      PullAdds(Recv.Consume(r1, x.(skip := r.rsn - x.rsn)), sg.flags.close);
    }
  }

  lemma OpenAvail(r: Recv.Receiver, S: seq<Byte>)
    requires Reassembly.ReceiverOk(r, S)
    ensures r.ravail >= 0 && !r.endread
  {
    hide Reassembly.Aligned, Reassembly.HoldsAll, Reassembly.Filled, Reassembly.Volume, Reassembly.BytesOf;
    Reading.VolumeNonNegative(r.rsegs);
  }
}
