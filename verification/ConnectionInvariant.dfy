/** The invariant of one endpoint of a connection, relative to what the other endpoint has done so
    far, and its preservation through every upcall. */
module ConnectionInvariant {
  import opened Words
  import opened FlowSpec
  import opened FlowInvariant
  import opened StreamSend
  import Recv = StreamReceive
  import Messages
  import opened Connection

  const PACKET_LIMIT := WORD16

  /** What an endpoint has done, as far as its peer can care. */
  datatype Story = Story(
    acked: set<int>,              // numbers it has acknowledged
    arrived: seq<Segment>,        // segments that reached its stream
    written: seq<Byte>,           // bytes it wrote
    cut: seq<Segment>,            // the segments it cut them into
    sent: seq<Packet<Payload>>,   // packets it sent
    sidseq: nat)                  // where its receive attachment starts

  function View(e: Node): Story {
    Story(e.fl.hist.acknowledged, e.up.rcv.arrived, e.up.snd.written, e.up.snd.cut, e.fl.hist.sent,
      e.up.sidseq)
  }

  predicate Grown(v: Story, w: Story) {
    && v.acked <= w.acked && v.arrived <= w.arrived && v.written <= w.written && v.cut <= w.cut && v.sent <= w.sent
    && v.sidseq == w.sidseq
  }

  predicate IsSeg(p: Packet<Payload>) {
    p.body.Data? && p.body.payload.Seg?
  }

  /** Acknowledged numbers name packets that were sent, and every segment among them arrived. */
  ghost predicate Vouched(sent: seq<Packet<Payload>>, acked: set<int>, arrived: seq<Segment>) {
    forall n :: n in acked ==>
      0 <= n < |sent| && (IsSeg(sent[n]) ==> sent[n].body.payload.sg in arrived)
  }

  // ---------- the sending half ----------

  /** Entries of ackwait name packets that have a record and carried their segment, live exactly while
      in the pipe. */
  ghost predicate Tied(e: Node) {
    forall n :: n in e.up.snd.ackwait ==>
      && e.fl.tx.txevtseq <= n < |e.fl.hist.sent|
      && e.fl.hist.sent[n].body == Data(Seg(e.up.snd.ackwait[n].sg))
      && (PipeAt(e.fl.tx, n) <==> !e.up.snd.ackwait[n].late)
  }

  ghost predicate SentFromCut(e: Node) {
    forall n :: 0 <= n < |e.fl.hist.sent| && IsSeg(e.fl.hist.sent[n]) ==>
      e.fl.hist.sent[n].body.payload.sg in e.up.snd.cut
  }

  /** What the sender forgets, the receiver has. */
  ghost predicate Released(s: Sender, arrived: seq<Segment>) {
    forall sg :: sg in s.cut ==> sg.tsn in s.twait || sg in arrived
  }

  /** Every packet reported acknowledged was acknowledged by the peer. */
  ghost predicate TrueAcks(f: Flow<Payload>, acked: set<int>) {
    forall i :: 0 <= i < |f.hist.notes| && f.hist.notes[i].Acked? ==> f.hist.notes[i].n in acked
  }

  ghost predicate SendMid(e: Node, far: Story) {
    && Records(e.fl)
    && TrueAcks(e.fl, far.acked)
    && SenderOk(e.up.snd)
    && Tied(e)
    && SentFromCut(e)
    && Released(e.up.snd, far.arrived)
    && Vouched(e.fl.hist.sent, far.acked, far.arrived)
  }

  // ---------- the receiving half ----------

  /** Every number in the run an acknowledgment word names has been acknowledged. */
  ghost predicate RunAcked(word: nat, acked: set<int>) {
    && AckCount(word) <= word % SEQ24
    && forall k :: word % SEQ24 - AckCount(word) <= k <= word % SEQ24 ==> k in acked
  }

  ghost predicate AckStateOk(f: Flow<Payload>) {
    && f.rx.rxackct <= ACKCT_MAX
    && f.rx.rxackct <= f.rx.rxackseq < SEQ24
    && forall k :: f.rx.rxackseq - f.rx.rxackct <= k <= f.rx.rxackseq ==> k in f.hist.acknowledged
  }

  ghost predicate HeadersOk(f: Flow<Payload>) {
    forall m :: 0 <= m < |f.hist.sent| ==> RunAcked(f.hist.sent[m].ackword, f.hist.acknowledged)
  }

  ghost predicate RecvMid(e: Node, far: Story) {
    && AckStateOk(e.fl)
    && HeadersOk(e.fl)
    && Messages.Faithful(e.up.rcv, far.written)
    && (forall sg :: sg in e.up.rcv.arrived ==> sg in far.cut)
    && Vouched(far.sent, e.fl.hist.acknowledged, e.up.rcv.arrived)
  }

  /** What holds of the peer's record of itself. */
  ghost predicate FarOk(far: Story) {
    && |far.sent| <= PACKET_LIMIT
    && Messages.WellCut(far.cut, far.written)
    && (forall n :: 0 <= n < |far.sent| && IsSeg(far.sent[n]) ==> far.sent[n].body.payload.sg in far.cut)
    && (forall m :: 0 <= m < |far.sent| ==> RunAcked(far.sent[m].ackword, far.acked))
  }

  /** The invariant of an endpoint at every moment, also inside an event that began at `own`. */
  ghost predicate Mid(e: Node, far: Story, own: Story) {
    SendMid(e, far) && RecvMid(e, far) && FarOk(far) && Grown(own, View(e))
  }

  // ---------- acts, one at a time ----------

  function Perform(e: Node, acts: seq<Act>): Node
    decreases |acts|
  {
    if acts == [] then e else Perform(PerformOne(e, acts[0]), acts[1..])
  }

  function PerformOne(e: Node, a: Act): Node {
    End(Serve(e.fl, PayloadSize, DoAct(e.up, a, e.fl.tx.txseq).1), DoAct(e.up, a, e.fl.tx.txseq).0)
  }

  lemma {:induction false} ServeAppend<P>(f: Flow<P>, size: P -> nat, r1: seq<Req<P>>, r2: seq<Req<P>>)
    ensures Serve(f, size, r1 + r2) == Serve(Serve(f, size, r1), size, r2)
    decreases |r1|
  {
    if r1 == [] {
      assert r1 + r2 == r2;
    } else {
      assert (r1 + r2)[0] == r1[0] && (r1 + r2)[1..] == r1[1..] + r2;
      match r1[0] {
        case Send(p) => ServeAppend(FlowTransmit(f, p, size(p)), size, r1[1..], r2);
        case Probe => ServeAppend(MayTransmit(f), size, r1[1..], r2);
      }
    }
  }

  lemma ServeCounts(f: Flow<Payload>, reqs: seq<Req<Payload>>)
    requires |reqs| <= 1
    ensures Serve(f, PayloadSize, reqs).tx.txseq == f.tx.txseq + SendCount(reqs)
  {
    if |reqs| == 1 {
      assert reqs[1..] == [] && reqs[..0] == [];
      match reqs[0] {
        case Send(p) => assert Serve(FlowTransmit(f, p, PayloadSize(p)), PayloadSize, []).tx.txseq == f.tx.txseq + 1;
        case Probe => assert Serve(MayTransmit(f), PayloadSize, []).tx.txseq == f.tx.txseq;
      }
    }
  }

  lemma DoActOne(u: Strm, a: Act, txseq: nat)
    ensures |DoAct(u, a, txseq).1| <= 1
  {
  }

  /** The upper layer may plan a whole upcall at once: acting step by step gives the same state. */
  lemma {:induction false} PerformIs(e: Node, acts: seq<Act>)
    ensures Perform(e, acts)
         == End(Serve(e.fl, PayloadSize, DoActs(e.up, acts, e.fl.tx.txseq).1), DoActs(e.up, acts, e.fl.tx.txseq).0)
    decreases |acts|
  {
    hide DoAct, Serve;
    if acts == [] {
      ServeNone(e.fl);
    } else {
      var r := DoAct(e.up, acts[0], e.fl.tx.txseq);
      DoActOne(e.up, acts[0], e.fl.tx.txseq);
      ServeCounts(e.fl, r.1);
      PerformIs(PerformOne(e, acts[0]), acts[1..]);
      var r2 := DoActs(r.0, acts[1..], e.fl.tx.txseq + SendCount(r.1));
      ServeAppend(e.fl, PayloadSize, r.1, r2.1);
    }
  }

  lemma ServeNone(f: Flow<Payload>)
    ensures Serve(f, PayloadSize, []) == f
  {
  }

  // ---------- each act keeps the invariant ----------

  lemma PackedRun(ackseq: nat, ackct: nat, acked: set<int>)
    requires ackct <= ACKCT_MAX && ackct <= ackseq < SEQ24
    requires forall k :: ackseq - ackct <= k <= ackseq ==> k in acked
    ensures RunAcked(PackAck(ackseq, ackct), acked)
  {
    PackAckFields(ackseq, ackct);
  }

  lemma SendHeaders(f: Flow<Payload>, p: Payload, size: nat)
    requires AckStateOk(f) && HeadersOk(f)
    ensures AckStateOk(FlowTransmit(f, p, size)) && HeadersOk(FlowTransmit(f, p, size))
  {
    hide RunAcked, PackAck;
    PackedRun(f.rx.rxackseq, f.rx.rxackct, f.hist.acknowledged);
  }

  lemma SendRecords(f: Flow<Payload>, p: Payload, size: nat)
    requires Records(f)
    ensures Records(FlowTransmit(f, p, size))
    ensures forall n :: PipeAt(FlowTransmit(f, p, size).tx, n) <==> PipeAt(f.tx, n) || n == f.tx.txseq
    ensures FlowTransmit(f, p, size).tx.txevtseq == f.tx.txevtseq <= f.tx.txseq
  {
    var f0 := f.(rx := f.rx.(rxunacked := 0));
    TxPacketRecords(f0, PackAck(f.rx.rxackseq, f.rx.rxackct), Data(p), size);
  }

  lemma VouchedGrows(sent: seq<Packet<Payload>>, p: Packet<Payload>, acked: set<int>, arrived: seq<Segment>)
    requires Vouched(sent, acked, arrived)
    ensures Vouched(sent + [p], acked, arrived)
  {
  }

  lemma ServeOneSend(f: Flow<Payload>, p: Payload)
    ensures Serve(f, PayloadSize, [Send(p)]) == FlowTransmit(f, p, PayloadSize(p))
  {
    assert [Send(p)][1..] == [];
  }

  lemma PerformSendOther(e: Node, p: Payload, far: Story, own: Story)
    requires Mid(e, far, own) && p.Other?
    ensures Mid(e.(fl := FlowTransmit(e.fl, p, PayloadSize(p))), far, own)
  {
    hide Records, AckStateOk, HeadersOk, SenderOk, PipeAt, Vouched, Messages.Faithful, FarOk, PackAck, TrueAcks, Released;
    SendHeaders(e.fl, p, PayloadSize(p));
    SendRecords(e.fl, p, PayloadSize(p));
    AcksSame(e.fl, FlowTransmit(e.fl, p, PayloadSize(p)), far.acked);
    VouchedGrows(e.fl.hist.sent, Packet(PackAck(e.fl.rx.rxackseq, e.fl.rx.rxackct), Data(p)), far.acked, far.arrived);
  }

  function NextSent(e: Node): Node
    requires e.up.snd.tqueue != []
  {
    var p := Seg(e.up.snd.tqueue[0]);
    End(FlowTransmit(e.fl, p, PayloadSize(p)), e.up.(snd := Transmit(e.up.snd, e.fl.tx.txseq)))
  }

  lemma NextSentTied(e: Node)
    requires Records(e.fl) && Tied(e) && e.up.snd.tqueue != []
    requires Collected(e.up.snd.tqueue, e.up.snd.twait) == e.up.snd.tqueue
    ensures Tied(NextSent(e)) && e.fl.tx.txseq !in e.up.snd.ackwait
  {
    hide Records, PipeAt, PackAck;
    var p := Seg(e.up.snd.tqueue[0]);
    SendRecords(e.fl, p, PayloadSize(p));
  }

  lemma NextSentFromCut(e: Node)
    requires Records(e.fl) && SentFromCut(e) && Known(e.up.snd) && e.up.snd.tqueue != []
    requires Collected(e.up.snd.tqueue, e.up.snd.twait) == e.up.snd.tqueue
    ensures SentFromCut(NextSent(e))
  {
  }

  lemma PerformSendNext(e: Node, far: Story, own: Story)
    requires Mid(e, far, own) && e.up.snd.tqueue != []
    ensures Mid(NextSent(e), far, own)
  {
    hide Records, AckStateOk, HeadersOk, PipeAt, Vouched, Tied, SentFromCut, OneCopy, Tiles, BytesAt, PackAck, SenderOk, Collected,
      Messages.Faithful, FarOk, TrueAcks;
    var s := e.up.snd;
    SenderParts(s);
    NextSentTied(e);
    NextSentFromCut(e);
    TransmitKeeps(s, e.fl.tx.txseq);
    var p := Seg(s.tqueue[0]);
    SendHeaders(e.fl, p, PayloadSize(p));
    SendRecords(e.fl, p, PayloadSize(p));
    AcksSame(e.fl, FlowTransmit(e.fl, p, PayloadSize(p)), far.acked);
    VouchedGrows(e.fl.hist.sent, Packet(PackAck(e.fl.rx.rxackseq, e.fl.rx.rxackct), Data(p)), far.acked, far.arrived);
  }

  lemma SenderParts(s: Sender)
    requires SenderOk(s)
    ensures Known(s) && Tiles(s.cut, s.written, s.endwrite) && Collected(s.tqueue, s.twait) == s.tqueue
  {
    NothingToCollect(s);
  }

  lemma PerformWrite(e: Node, data: seq<Byte>, flags: Flags, far: Story, own: Story)
    requires Mid(e, far, own) && MayWrite(e.up.snd, data, flags)
    ensures Mid(e.(up := e.up.(snd := WriteSegment(e.up.snd, data, flags))), far, own)
  {
    hide Records, PipeAt, Vouched, SenderOk, Enqueue, AckStateOk, HeadersOk, FarOk, Messages.Faithful;
    WriteKeeps(e.up.snd, data, flags);
  }

  lemma PerformDetach(e: Node, n: nat, far: Story, own: Story)
    requires Mid(e, far, own)
    ensures Mid(e.(up := e.up.(snd := GiveBack(e.up.snd, n))), far, own)
  {
    hide Records, PipeAt, Vouched, SenderOk, Enqueue, AckStateOk, HeadersOk, FarOk, Messages.Faithful;
    GiveBackKeeps(e.up.snd, n);
  }

  lemma PerformRead(e: Node, max: nat, far: Story, own: Story)
    requires Mid(e, far, own)
    ensures Mid(e.(up := e.up.(rcv := Recv.ReadData(e.up.rcv, max))), far, own)
  {
    hide Records, PipeAt, Vouched, SenderOk, AckStateOk, HeadersOk, FarOk, Messages.Faithful;
    Messages.ReadDataFaithful(e.up.rcv, max, far.written);
  }

  /** Steps that touch only what the invariant does not mention. */
  lemma Neutral(e: Node, g: Flow<Payload>, far: Story, own: Story)
    requires Mid(e, far, own) && g.tx == e.fl.tx && g.hist.sent == e.fl.hist.sent
    requires g.rx.rxackseq == e.fl.rx.rxackseq && g.rx.rxackct == e.fl.rx.rxackct
    requires g.hist.acknowledged == e.fl.hist.acknowledged && TrueAcks(g, far.acked)
    ensures Mid(e.(fl := g), far, own)
  {
    hide PipeAt, SenderOk, FarOk, Vouched, Messages.Faithful, RunAcked, TrueAcks;
  }

  lemma MidAcks(e: Node, far: Story, own: Story)
    requires Mid(e, far, own)
    ensures TrueAcks(e.fl, far.acked) && TrueAcks(WithNote(e.fl, Ready), far.acked)
  {
  }

  lemma AcksSame(f: Flow<Payload>, g: Flow<Payload>, acked: set<int>)
    requires TrueAcks(f, acked) && g.hist.notes == f.hist.notes
    ensures TrueAcks(g, acked)
  {
  }

  lemma PerformProbe(e: Node, far: Story, own: Story)
    requires Mid(e, far, own)
    ensures Mid(e.(fl := MayTransmit(e.fl)), far, own)
  {
    hide Mid, TrueAcks;
    MidAcks(e, far, own);
    AcksSame(e.fl, MayTransmit(e.fl), far.acked);
    Neutral(e, MayTransmit(e.fl), far, own);
  }

  lemma PerformOneKeeps(e: Node, a: Act, far: Story, own: Story)
    requires Mid(e, far, own)
    ensures Mid(PerformOne(e, a), far, own)
  {
    hide Mid, Serve, FlowTransmit, Transmit, Collected, MayTransmit;
    match a {
      case Write(data, flags) =>
        ServeNone(e.fl);
        if MayWrite(e.up.snd, data, flags) { PerformWrite(e, data, flags, far, own); }
      case SendNext => PerformOneSend(e, far, own);
      case SendOther(p) =>
        ServeNone(e.fl);
        if p.Other? {
          ServeOneSend(e.fl, p);
          PerformSendOther(e, p, far, own);
        }
      case Detach(n) =>
        ServeNone(e.fl);
        PerformDetach(e, n, far, own);
      case Probe =>
        ServeOneProbe(e.fl);
        PerformProbe(e, far, own);
      case Read(max) =>
        ServeNone(e.fl);
        PerformRead(e, max, far, own);
    }
  }

  lemma ServeOneProbe(f: Flow<Payload>)
    ensures Serve(f, PayloadSize, [Req.Probe]) == MayTransmit(f)
  {
    var none: seq<Req<Payload>> := [];
    assert [Req.Probe][1..] == none;
  }

  lemma PerformOneSend(e: Node, far: Story, own: Story)
    requires Mid(e, far, own)
    ensures Mid(PerformOne(e, SendNext), far, own)
  {
    hide SendMid, RecvMid, FarOk, Serve, FlowTransmit, SenderOk;
    MidSender(e, far, own);
    SenderParts(e.up.snd);
    if e.up.snd.tqueue == [] {
      ServeNone(e.fl);
      assert e.up.snd.(tqueue := []) == e.up.snd;
    } else {
      ServeOneSend(e.fl, Seg(e.up.snd.tqueue[0]));
      PerformSendNext(e, far, own);
    }
  }

  lemma MidSender(e: Node, far: Story, own: Story)
    requires Mid(e, far, own)
    ensures SenderOk(e.up.snd) && Records(e.fl)
  {
  }

  lemma {:induction false} PerformKeeps(e: Node, acts: seq<Act>, far: Story, own: Story)
    requires Mid(e, far, own)
    ensures Mid(Perform(e, acts), far, own)
    decreases |acts|
  {
    hide Mid, PerformOne;
    if acts != [] {
      PerformOneKeeps(e, acts[0], far, own);
      PerformKeeps(PerformOne(e, acts[0]), acts[1..], far, own);
    }
  }

  // ---------- upcalls ----------

  /** The endpoint as the acts of an upcall find it. */
  function Informed(e: Node, x: Note): Node {
    End(WithNote(e.fl, x), Told(e.up, x))
  }

  lemma NotifyIs(e: Node, x: Note)
    ensures Notify(e, H, x)
         == if Told(e.up, x).script == [] then Informed(e, x)
            else Perform(WithScript(Informed(e, x), Told(e.up, x).script[1..]), Told(e.up, x).script[0])
  {
    hide Perform, Serve, DoActs;
    var u := Told(e.up, x);
    if u.script == [] {
      ServeNone(WithNote(e.fl, x));
    } else {
      PerformIs(WithScript(Informed(e, x), u.script[1..]), u.script[0]);
    }
  }

  lemma ScriptFree(e: Node, script: seq<seq<Act>>, far: Story, own: Story)
    requires Mid(e, far, own)
    ensures Mid(WithScript(e, script), far, own)
  {
    hide Records, PipeAt, Vouched, SenderOk, AckStateOk, HeadersOk, FarOk, Messages.Faithful;
  }

  /** An upcall whose immediate effect keeps the invariant keeps it to its end. */
  lemma NotifyKeeps(e: Node, x: Note, far: Story, own: Story)
    requires Mid(Informed(e, x), far, own)
    ensures Mid(Notify(e, H, x), far, own)
  {
    hide Mid, Perform, Notify, Told;
    NotifyIs(e, x);
    var script := Told(e.up, x).script;
    if script != [] {
      ScriptFree(Informed(e, x), script[1..], far, own);
      PerformKeeps(WithScript(Informed(e, x), script[1..]), script[0], far, own);
    }
  }
}
