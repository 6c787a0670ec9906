/** Every run of two endpoints over a network that loses, repeats, delays and reorders packets. */
module EndToEnd {
  import opened Words
  import opened FlowSpec
  import opened FlowInvariant
  import FE = FlowEvents
  import opened AckReports
  import opened StreamSend
  import Recv = StreamReceive
  import opened Reassembly
  import Messages
  import Reading
  import FlowLaws
  import ConnectionEvents
  import opened Connection
  import opened ConnectionInvariant
  import opened ConnectionTheorem

  // ---------- what every event keeps ----------

  /** Histories and packet numbers only grow. */
  lemma NodeStepGrows(e: Node, peer: Node, ev: Event)
    ensures Later(e.fl, NodeStep(e, peer, ev).fl)
  {
    hide Receive, Notify, RtxTimeout, FlushAck, Later, Onward;
    match ev {
      case Deliver(_, k, word, script) =>
        if 0 < k < |peer.fl.hist.sent| {
          ReceiveGrows(WithScript(e, script), H, Wire(word, k, peer.fl.hist.sent[k]));
        } else {
          LaterRefl(e.fl);
        }
      case Junk(_, word) => ReceiveGrows(e, H, Forged(word));
      case RtxTimer(_, script) =>
        TimeoutGrows(WithScript(e, script), H);
        OnwardLater(e.fl, RtxTimeout(WithScript(e, script), H).fl);
      case AckTimer(_) =>
        FlushOnward(e.fl);
        OnwardLater(e.fl, FlushAck(e.fl));
      case Local(_, script) =>
        NotifyGrows(WithScript(e, script), H, Ready);
        OnwardLater(e.fl, Notify(WithScript(e, script), H, Ready).fl);
    }
  }

  // ---------- both endpoints ----------

  /** Both endpoints are in order, each relative to what the other has done. */
  ghost predicate SystemOk(s: System) {
    NodeOk(s.a, View(s.b), View(s.a)) && NodeOk(s.b, View(s.a), View(s.b))
  }

  /** Fewer than 2^16 packets each way. */
  predicate InRange(s: System) {
    s.a.fl.tx.txseq <= PACKET_LIMIT && s.b.fl.tx.txseq <= PACKET_LIMIT
  }

  lemma InOrderLonger(r: Recv.Receiver, S: seq<Byte>, T: seq<Byte>)
    requires InOrder(r, S) && S <= T
    ensures InOrder(r, T)
  {
    hide BytesOf;
  }

  /** More bytes written by the sender do not disturb the receiver. */
  lemma SafeLonger(r: Recv.Receiver, S: seq<Byte>, T: seq<Byte>)
    requires Messages.Faithful(r, S) && S <= T
    ensures Messages.Faithful(r, T)
  {
    hide Messages.Marks, InOrder, Balanced, Aligned, FromArrivals, Filled, CloseSeen, HasClose, Holds;
    if r.endread {
    } else {
      InOrderLonger(r, S, T);
      forall sg | sg in r.arrived ensures CutFrom(T, sg) {
        assert CutFrom(S, sg);
      }
    }
  }

  /** What an endpoint in order looks like to its peer. */
  lemma ViewOk(e: Node, far: Story, own: Story)
    requires Mid(e, far, own) && e.fl.tx.txseq <= PACKET_LIMIT
    ensures FarOk(View(e))
  {
    hide Messages.Faithful, RunAcked, OneCopy, BytesAt, PipeAt, TrueAcks, Released, Vouched, Tied, Known, Tiles, Messages.WellCut;
    Messages.TilesWellCut(e.up.snd.cut, e.up.snd.written, e.up.snd.endwrite);
  }

  lemma SendMidLater(e: Node, far: Story, far': Story)
    requires SendMid(e, far) && Grown(far, far') && Vouched(e.fl.hist.sent, far'.acked, far'.arrived)
    ensures SendMid(e, far')
  {
    hide Records, SenderOk, Tied, SentFromCut, Vouched;
  }

  lemma RecvMidLater(e: Node, far: Story, far': Story)
    requires RecvMid(e, far) && Grown(far, far') && Vouched(far'.sent, e.fl.hist.acknowledged, e.up.rcv.arrived)
    ensures RecvMid(e, far')
  {
    hide AckStateOk, HeadersOk, Messages.Faithful, Vouched;
    SafeLonger(e.up.rcv, far.written, far'.written);
  }

  /** An event at one endpoint leaves the other in order. */
  lemma OtherKeeps(e: Node, e': Node, peer: Node)
    requires NodeOk(peer, View(e), View(peer)) && NodeOk(e', View(peer), View(e)) && e'.fl.tx.txseq <= PACKET_LIMIT
    ensures NodeOk(peer, View(e'), View(peer)) && NodeOk(e', View(peer), View(e'))
  {
    hide SendMid, RecvMid, FarOk, Vouched, FE.Sound;
    ViewOk(e', View(peer), View(e));
    MidVouched(e', View(peer), View(e));
    RecvVouched(e', View(peer));
    SendMidLater(peer, View(e), View(e'));
    RecvMidLater(peer, View(e), View(e'));
  }

  lemma RecvVouched(e: Node, far: Story)
    requires RecvMid(e, far)
    ensures Vouched(far.sent, e.fl.hist.acknowledged, e.up.rcv.arrived)
  {
  }

  lemma StepKeeps(s: System, ev: Event)
    requires SystemOk(s) && InRange(s) && InRange(Step(s, ev))
    ensures SystemOk(Step(s, ev))
  {
    hide NodeOk, NodeStep, View;
    if ev.here {
      NodeStepKeeps(s.a, s.b, ev);
      OtherKeeps(s.a, Step(s, ev).a, s.b);
    } else {
      NodeStepKeeps(s.b, s.a, ev);
      OtherKeeps(s.b, Step(s, ev).b, s.a);
    }
  }

  function Start(sidA: nat, sidB: nat): System {
    System(InitNode(sidA), InitNode(sidB))
  }

  lemma InitMid(here: nat, there: nat)
    ensures NodeOk(InitNode(here), View(InitNode(there)), View(InitNode(here)))
  {
    hide FE.Sound, Messages.Faithful, SenderOk, Records, AckStateOk, RunAcked, PipeAt;
    FE.InitSound<Payload>();
    InitRecvOk();
    InitSenderOk();
    InitHeaders();
    var e := InitNode(here);
    assert SendMid(e, View(InitNode(there)));
    assert RecvMid(e, View(InitNode(there)));
  }

  lemma InitHeaders()
    ensures AckStateOk(InitFlow()) && Records(InitFlow<Payload>()) && RunAcked(0, {0})
  {
    FE.InitSound<Payload>();
  }

  lemma InitSenderOk()
    ensures SenderOk(InitSender)
  {
  }

  lemma InitRecvOk()
    ensures Messages.Faithful(Recv.InitReceiver, [])
  {
    hide Aligned, Holds, InOrder, Balanced;
    InitRecvParts();
    assert Messages.Marks(Recv.InitReceiver);
  }

  lemma InitRecvParts()
    ensures InOrder(Recv.InitReceiver, []) && Balanced(Recv.InitReceiver) && Aligned(Recv.InitReceiver)
  {
    hide Volume, Sum, BytesOf, Aligned;
    EmptyTotals();
    EmptyAligned(Recv.InitReceiver);
  }

  lemma EmptyAligned(r: Recv.Receiver)
    requires r.rsegs == [] && r.rmsgsize == []
    ensures Aligned(r)
  {
    hide Volume, Sum;
    EmptyTotals();
    assert r.rsegs[..0] == [];
    assert EndsAt(r.rsegs, 0);
    forall j | 0 <= j <= |r.rmsgsize| ensures EndsAt(r.rsegs, Sum(r.rmsgsize[..j])) {
      assert r.rmsgsize[..j] == [];
    }
  }

  lemma EmptyTotals()
    ensures Volume([]) == 0 && Sum([]) == 0 && BytesOf([]) == []
  {
  }

  /** In every run both endpoints stay in order. */
  lemma {:induction false} RunKeeps(sidA: nat, sidB: nat, evs: seq<Event>)
    requires InRange(Run(Start(sidA, sidB), evs))
    ensures SystemOk(Run(Start(sidA, sidB), evs))
    decreases |evs|
  {
    hide SystemOk, NodeStep, InitNode, NodeOk, View, Later;
    if evs == [] {
      InitMid(sidA, sidB);
      InitMid(sidB, sidA);
      StartOk(sidA, sidB);
    } else {
      var s, ev := Run(Start(sidA, sidB), evs[..|evs| - 1]), evs[|evs| - 1];
      NodeStepGrows(At(s, ev.here), At(s, !ev.here), ev);
      LaterNumbers(At(s, ev.here).fl, At(Run(Start(sidA, sidB), evs), ev.here).fl);
      RunKeeps(sidA, sidB, evs[..|evs| - 1]);
      StepKeeps(s, ev);
    }
  }

  lemma StartOk(sidA: nat, sidB: nat)
    requires NodeOk(InitNode(sidA), View(InitNode(sidB)), View(InitNode(sidA)))
    requires NodeOk(InitNode(sidB), View(InitNode(sidA)), View(InitNode(sidB)))
    ensures SystemOk(Start(sidA, sidB))
  {
    hide NodeOk, View, InitNode;
  }

  // ---------- what that means for the two streams ----------

  /** What the sender forgets the receiver holds, and the bytes read are a prefix of those written. */
  ghost predicate Delivered(s: Sender, r: Recv.Receiver) {
    && (forall sg :: sg in s.cut ==> sg.tsn in s.twait || Holds(r, sg))
    && r.readout <= s.written
  }

  /** Everything x believes acknowledged, y acknowledged; a segment among it reached y's stream. */
  ghost predicate TrueBeliefs(x: Node, y: Node) {
    && (forall n :: n in x.fl.hist.credited ==> n in y.fl.hist.acknowledged)
    && (forall i :: 0 <= i < |x.fl.hist.notes| && x.fl.hist.notes[i].Acked? ==>
          x.fl.hist.notes[i].n in y.fl.hist.acknowledged)
    && (forall n :: n in y.fl.hist.acknowledged ==> 0 <= n < |x.fl.hist.sent|)
    && (forall n :: n in y.fl.hist.acknowledged && IsSeg(x.fl.hist.sent[n]) ==>
          x.fl.hist.sent[n].body.payload.sg in y.up.rcv.arrived)
  }

  /** A closed receiver has passed the last byte written. */
  lemma ClosedAtEnd(s: Sender, r: Recv.Receiver)
    requires Tiles(s.cut, s.written, s.endwrite) && CloseSeen(r)
    requires forall sg :: sg in r.arrived ==> sg in s.cut
    ensures |s.written| <= r.rsn
  {
    var sg :| sg in r.arrived && sg.flags.close && sg.End() <= r.rsn;
    var i :| 0 <= i < |s.cut| && s.cut[i] == sg;
  }

  lemma HeldWhenArrived(s: Sender, r: Recv.Receiver, sg: Segment)
    requires Tiles(s.cut, s.written, s.endwrite) && Messages.Faithful(r, s.written)
    requires forall y :: y in r.arrived ==> y in s.cut
    requires sg in r.arrived
    ensures Holds(r, sg)
  {
    hide InOrder, Balanced, Aligned, FromArrivals, Filled, HasClose;
    if r.endread {
      ClosedAtEnd(s, r);
      var i :| 0 <= i < |s.cut| && s.cut[i] == sg;
    }
  }

  lemma SafePrefix(r: Recv.Receiver, S: seq<Byte>)
    requires Messages.Faithful(r, S)
    ensures r.readout <= S && r.rsn <= |S|
  {
  }

  lemma NodeFacts(x: Node, y: Node)
    requires NodeOk(x, View(y), View(x)) && NodeOk(y, View(x), View(y))
    ensures SenderOk(x.up.snd) && Released(x.up.snd, y.up.rcv.arrived)
    ensures Messages.Faithful(y.up.rcv, x.up.snd.written)
    ensures forall sg :: sg in y.up.rcv.arrived ==> sg in x.up.snd.cut
    ensures TrueBeliefs(x, y)
  {
    hide Records, SenderOk, Tied, SentFromCut, Messages.Faithful, AckStateOk, HeadersOk, FarOk, FE.Sound;
  }

  lemma NodesDeliver(x: Node, y: Node)
    requires NodeOk(x, View(y), View(x)) && NodeOk(y, View(x), View(y))
    ensures Delivered(x.up.snd, y.up.rcv)
  {
    hide NodeOk, SenderOk, Messages.Faithful, Holds, Tiles;
    NodeFacts(x, y);
    SenderParts(x.up.snd);
    SafePrefix(y.up.rcv, x.up.snd.written);
    forall sg | sg in y.up.rcv.arrived ensures Holds(y.up.rcv, sg) {
      HeldWhenArrived(x.up.snd, y.up.rcv, sg);
    }
  }

  /** The main theorem, in both directions at once. */
  lemma ReliableDelivery(sidA: nat, sidB: nat, evs: seq<Event>, s: System)
    requires s == Run(Start(sidA, sidB), evs) && InRange(s)
    ensures Delivered(s.a.up.snd, s.b.up.rcv) && Delivered(s.b.up.snd, s.a.up.rcv)
    ensures TrueBeliefs(s.a, s.b) && TrueBeliefs(s.b, s.a)
    ensures SenderOk(s.a.up.snd) && SenderOk(s.b.up.snd)
    ensures FE.Sound(s.a.fl) && FE.Sound(s.b.fl)
  {
    hide NodeOk, SenderOk, Delivered, TrueBeliefs, FE.Sound, Run;
    RunKeeps(sidA, sidB, evs);
    NodesDeliver(s.a, s.b);
    NodesDeliver(s.b, s.a);
    NodeFacts(s.a, s.b);
    NodeFacts(s.b, s.a);
    NodeSound(s.a, View(s.b), View(s.a));
    NodeSound(s.b, View(s.a), View(s.b));
  }

  lemma NodeSound(e: Node, far: Story, own: Story)
    requires NodeOk(e, far, own)
    ensures FE.Sound(e.fl)
  {
  }

  // ---------- nothing outstanding means everything delivered ----------

  /** Every byte written lies in some segment. */
  lemma {:induction false} TileCovers(cut: seq<Segment>, w: seq<Byte>, closed: bool, k: nat, j: nat)
    requires Tiles(cut, w, closed) && 0 < j <= |cut| && k < cut[j - 1].End()
    ensures Covers(cut, k)
  {
    if cut[j - 1].tsn <= k {
      assert cut[j - 1] in cut;
    } else {
      TileCovers(cut, w, closed, k, j - 1);
    }
  }

  /** Once the sender waits for nothing, the receiver has every byte written. */
  lemma Drained(sidA: nat, sidB: nat, evs: seq<Event>, s: System)
    requires s == Run(Start(sidA, sidB), evs) && InRange(s) && s.a.up.snd.twait == {}
    ensures s.b.up.rcv.rsn == |s.a.up.snd.written|
    ensures !s.b.up.rcv.endread ==>
              (AllValid(s.b.up.rcv.rsegs) && s.b.up.rcv.readout + BytesOf(s.b.up.rcv.rsegs) == s.a.up.snd.written)
  {
    hide NodeOk, SenderOk, TrueBeliefs, FE.Sound, Run, Messages.Faithful;
    RunKeeps(sidA, sidB, evs);
    NodeFacts(s.a, s.b);
    SenderParts(s.a.up.snd);
    DrainedPair(s.a.up.snd, s.b.up.rcv);
  }

  lemma DrainedPair(s: Sender, r: Recv.Receiver)
    requires Tiles(s.cut, s.written, s.endwrite) && Messages.Faithful(r, s.written)
    requires forall sg :: sg in r.arrived ==> sg in s.cut
    requires Released(s, r.arrived) && s.twait == {}
    ensures r.rsn == |s.written|
    ensures !r.endread ==> AllValid(r.rsegs) && r.readout + BytesOf(r.rsegs) == s.written
  {
    hide Balanced, Aligned, FromArrivals, HasClose, Sorted, BytesOf;
    SafePrefix(r, s.written);
    if r.endread {
      ClosedAtEnd(s, r);
    } else {
      FirstGap(r, s.written);
      if r.rsn < |s.written| {
        TileCovers(s.cut, s.written, s.endwrite, r.rsn, |s.cut|);
      }
      assert s.written[..|s.written|] == s.written;
    }
  }

  // ---------- messages ----------

  /** In every run, on a stream still open, a read with room for the next message returns exactly
      one message of the sender. */
  lemma MessagesFollow(sidA: nat, sidB: nat, evs: seq<Event>, s: System, max: int)
    requires s == Run(Start(sidA, sidB), evs) && InRange(s)
    requires !s.b.up.rcv.endread && s.b.up.rcv.rmsgsize != [] && s.b.up.rcv.rmsgsize[0] <= max
    ensures Recv.Fits(s.b.up.rcv, max)
    ensures Messages.OneMessage(s.b.up.rcv, Recv.ReadData(s.b.up.rcv, max), s.a.up.snd.cut, s.a.up.snd.written)
  {
    hide NodeOk, SenderOk, TrueBeliefs, Run, Messages.Faithful, Messages.OneMessage, Tiles, Messages.WellCut;
    RunKeeps(sidA, sidB, evs);
    NodeFacts(s.a, s.b);
    SenderParts(s.a.up.snd);
    Messages.TilesWellCut(s.a.up.snd.cut, s.a.up.snd.written, s.a.up.snd.endwrite);
    Messages.NextMessage(s.b.up.rcv, max, s.a.up.snd.cut, s.a.up.snd.written);
  }

  // ---------- acknowledgments reach the peer ----------

  /** An event at an endpoint whose peer has sent fewer than 2^16 packets keeps its promises. */
  lemma NodeStepOwing(e: Node, peer: Node, ev: Event)
    requires FE.Sound(e.fl) && Owing(e.fl) && AckedAccepted(e.fl) && |peer.fl.hist.sent| <= PACKET_LIMIT
    ensures Owing(NodeStep(e, peer, ev).fl) && AckedAccepted(NodeStep(e, peer, ev).fl)
  {
    hide Receive, Notify, RtxTimeout, FlushAck, Onward, FE.Sound, Owing, AckedAccepted;
    match ev {
      case Deliver(_, k, word, script) =>
        if 0 < k < |peer.fl.hist.sent| {
          ReceiveOwing(WithScript(e, script), H, Wire(word, k, peer.fl.hist.sent[k]));
        }
      case Junk(_, word) => ReceiveOwing(e, H, Forged(word));
      case RtxTimer(_, script) =>
        TimeoutGrows(WithScript(e, script), H);
        OnwardKeeps(e.fl, RtxTimeout(WithScript(e, script), H).fl);
      case AckTimer(_) =>
        FlushOnward(e.fl);
        OnwardKeeps(e.fl, FlushAck(e.fl));
      case Local(_, script) =>
        NotifyGrows(WithScript(e, script), H, Ready);
        OnwardKeeps(e.fl, Notify(WithScript(e, script), H, Ready).fl);
    }
  }

  lemma SystemSound(s: System)
    requires SystemOk(s)
    ensures FE.Sound(s.a.fl) && FE.Sound(s.b.fl)
  {
    hide Mid, FE.Sound, TrueCredits;
  }

  lemma SystemLengths(s: System)
    requires SystemOk(s)
    ensures |s.a.fl.hist.sent| == s.a.fl.tx.txseq && |s.b.fl.hist.sent| == s.b.fl.tx.txseq
  {
    hide Good, RxOk, FE.Sound, TrueCredits;
    MidVouched(s.a, View(s.b), View(s.a));
    MidVouched(s.b, View(s.a), View(s.b));
  }

  /** In every run, each packet an endpoint undertook to acknowledge has been named in a header it
      sent, or is one of at most three in a row that its next header will name. */
  lemma {:induction false} AckDelayBound(sidA: nat, sidB: nat, evs: seq<Event>)
    requires InRange(Run(Start(sidA, sidB), evs))
    ensures Owing(Run(Start(sidA, sidB), evs).a.fl) && AckedAccepted(Run(Start(sidA, sidB), evs).a.fl)
    ensures Owing(Run(Start(sidA, sidB), evs).b.fl) && AckedAccepted(Run(Start(sidA, sidB), evs).b.fl)
    decreases |evs|
  {
    hide NodeStep, Owing, AckedAccepted, SystemOk, FE.Sound, Later;
    if evs == [] {
      InitOwing<Payload>();
    } else {
      var s, ev := Run(Start(sidA, sidB), evs[..|evs| - 1]), evs[|evs| - 1];
      NodeStepGrows(At(s, ev.here), At(s, !ev.here), ev);
      LaterNumbers(At(s, ev.here).fl, At(Run(Start(sidA, sidB), evs), ev.here).fl);
      AckDelayBound(sidA, sidB, evs[..|evs| - 1]);
      RunKeeps(sidA, sidB, evs[..|evs| - 1]);
      SystemSound(s);
      SystemLengths(s);
      NodeStepOwing(At(s, ev.here), At(s, !ev.here), ev);
    }
  }

  // ---------- packets reach the stream ----------

  /** A segment handed up reaches the stream, and its packet is to be acknowledged. */
  lemma DeliverArrives(e: Node, n: nat, sg: Segment, far: Story, own: Story)
    requires Mid(e, far, own) && Genuine(n, Data(Seg(sg)), far) && n >= e.up.sidseq
    ensures Mid(FlowSpec.Deliver(e, H, n, Data(Seg(sg))), far, own)
    ensures sg in FlowSpec.Deliver(e, H, n, Data(Seg(sg))).up.rcv.arrived
    ensures n in FlowSpec.Deliver(e, H, n, Data(Seg(sg))).fl.hist.promised
  {
    hide Mid, Notify, Acknowledge, Recv.RxData, Genuine, Acceptable, FarOk;
    var body := Data(Seg(sg));
    var e0 := e.(up := Taken(e.up, n, body).0);
    TakenMid(e, n, body, far, own);
    TakenArrives(e, n, sg);
    Rebase(e0, far, own);
    ReadyKeeps(e0, far, View(e0));
    var e1 := Notify(e0, H, Ready);
    Regrow(e1, far, View(e0), own);
    ArrivedLater(e0, e1, sg);
    AcknowledgeHistory(e1.fl, n, true);
    DeliverKeeps(e, n, body, far, own);
  }

  lemma TakenArrives(e: Node, n: nat, sg: Segment)
    requires n >= e.up.sidseq
    ensures sg in Taken(e.up, n, Data(Seg(sg))).0.rcv.arrived && Taken(e.up, n, Data(Seg(sg))).1 == AckSoon
  {
    Reading.ArrivedKept(e.up.rcv, sg);
  }

  lemma ArrivedLater(e: Node, e': Node, sg: Segment)
    requires Grown(View(e), View(e')) && sg in e.up.rcv.arrived
    ensures sg in e'.up.rcv.arrived
  {
    var i :| 0 <= i < |e.up.rcv.arrived| && e.up.rcv.arrived[i] == sg;
    assert e'.up.rcv.arrived[i] == sg;
  }

  lemma MoreArrives(e: Node, newpackets: nat, sg: Segment, far: Story, own: Story)
    requires Mid(e, far, own) && sg in e.up.rcv.arrived
    ensures sg in MoreIfAllowed(e, H, newpackets).up.rcv.arrived
  {
    hide Mid, Notify, MayTransmit;
    Rebase(e, far, own);
    ReadyKeeps(e, far, View(e));
    Regrow(Notify(e, H, Ready), far, View(e), View(e));
    ArrivedLater(e, Notify(e, H, Ready), sg);
  }

  lemma ProcessArrives(e: Node, n: nat, pkt: Packet<Payload>, sg: Segment, far: Story)
    requires Mid(e, far, View(e)) && Good(e.fl) && e.fl.tx.txseq <= PACKET_LIMIT && n >= e.up.sidseq
    requires pkt.body == Data(Seg(sg)) && Genuine(n, pkt.body, far) && RunAcked(pkt.ackword, far.acked)
    ensures sg in Process(e, H, n, pkt).up.rcv.arrived && n in Process(e, H, n, pkt).fl.hist.promised
  {
    hide Mid, Good, Genuine, RunAcked, TakeAcks, GrowWindow, FlowSpec.Deliver, Recover, AckCount, Records, Vouched,
      MoreIfAllowed, Onward;
    MidVouched(e, far, View(e));
    WordReads(e.fl, pkt.ackword, far);
    ConnectionEvents.TakeAcksKeeps(e, pkt.ackword, n, pkt.ackword % SEQ24, far, View(e));
    var r := TakeAcks(e, H, pkt.ackword, n);
    GrowWindowKeeps(r.0, r.1, pkt.ackword % SEQ24, far, View(e));
    var e2 := r.0.(fl := GrowWindow(r.0.fl, r.1, pkt.ackword % SEQ24));
    SameAttachment(e2, far, View(e));
    DeliverArrives(e2, n, sg, far, View(e));
    var e3 := FlowSpec.Deliver(e2, H, n, pkt.body);
    MoreArrives(e3, r.1, sg, far, View(e));
    MoreGrows(e3, H, r.1);
    PromisedLater(e3.fl, MoreIfAllowed(e3, H, r.1).fl);
  }

  lemma SameAttachment(e: Node, far: Story, own: Story)
    requires Mid(e, far, own)
    ensures e.up.sidseq == own.sidseq
  {
  }

  lemma PromisedLater(f: Flow<Payload>, g: Flow<Payload>)
    requires Onward(f, g)
    ensures f.hist.promised <= g.hist.promised
  {
  }

  /** A packet with a segment that arrives under its own number, is new, no more than 31 behind the
      newest and no older than the attachment, is accepted, reaches the stream, and is to be
      acknowledged. */
  lemma PacketArrives(e: Node, peer: Node, k: nat, word: nat, here: bool, script: seq<seq<Act>>, sg: Segment)
    requires NodeOk(e, View(peer), View(e)) && e.fl.tx.txseq <= PACKET_LIMIT
    requires 0 < k < |peer.fl.hist.sent| && peer.fl.hist.sent[k].body == Data(Seg(sg)) && k >= e.up.sidseq
    requires k !in e.fl.hist.accepted && k > e.fl.rx.rxseq - MASK_BITS && Recover(word, e.fl.rx.rxseq) == k
    ensures k in NodeStep(e, peer, Event.Deliver(here, k, word, script)).fl.hist.accepted
    ensures sg in NodeStep(e, peer, Event.Deliver(here, k, word, script)).up.rcv.arrived
    ensures k in NodeStep(e, peer, Event.Deliver(here, k, word, script)).fl.hist.promised
  {
    hide Mid, Good, RxOk, Genuine, RunAcked, Process, Recover, SeqDiff, FlowSpec.Accept, FarOk, Admissible;
    var far, e0 := View(peer), WithScript(e, script);
    ScriptFree(e, script, far, View(e));
    Rebase(e0, far, View(e));
    PeerPacket(far, k);
    FlowLaws.AdmissionForward(e0.fl, word, k);
    FlowLaws.AdmissionExact(e0, H, Wire(word, k, far.sent[k]));
    var seqdiff := SeqDiff(word, e0.fl.rx.rxseq);
    AdmissibleDiff(e0.fl.rx, seqdiff, k);
    AcceptMid(e0, seqdiff, k, far, View(e0));
    FE.AcceptGood(e0.fl, seqdiff, k);
    AcceptTx(e0.fl, seqdiff, k);
    var e1 := e0.(fl := FlowSpec.Accept(e0.fl, seqdiff, k));
    Rebase(e1, far, View(e0));
    ProcessArrives(e1, k, far.sent[k], sg, far);
  }

  /** A segment older than the attachment is dropped without a word. */
  lemma StaleIgnored(u: Strm, n: int, sg: Segment)
    requires n < u.sidseq
    ensures Taken(u, n, Data(Seg(sg))) == (u, Ignore)
  {
  }

  /** A bare acknowledgment that is new and not too old is accepted and itself acknowledged, quietly. */
  lemma BareArrives(e: Node, peer: Node, k: nat, word: nat, here: bool, script: seq<seq<Act>>)
    requires NodeOk(e, View(peer), View(e)) && e.fl.tx.txseq <= PACKET_LIMIT
    requires 0 < k < |peer.fl.hist.sent| && peer.fl.hist.sent[k].body == Bare
    requires k !in e.fl.hist.accepted && k > e.fl.rx.rxseq - MASK_BITS && Recover(word, e.fl.rx.rxseq) == k
    ensures k in NodeStep(e, peer, Event.Deliver(here, k, word, script)).fl.hist.acknowledged
  {
    hide Mid, Good, RxOk, Genuine, RunAcked, Process, Recover, SeqDiff, FlowSpec.Accept, FarOk, Admissible, Records, Vouched,
      AckCount;
    var far, e0 := View(peer), WithScript(e, script);
    ScriptFree(e, script, far, View(e));
    Rebase(e0, far, View(e));
    PeerPacket(far, k);
    FlowLaws.AdmissionForward(e0.fl, word, k);
    var seqdiff := SeqDiff(word, e0.fl.rx.rxseq);
    AdmissibleDiff(e0.fl.rx, seqdiff, k);
    AcceptTx(e0.fl, seqdiff, k);
    MidVouched(e0, far, View(e));
    WordReads(e0.fl, far.sent[k].ackword, far);
    FlowLaws.ProcessAcks(e0.(fl := FlowSpec.Accept(e0.fl, seqdiff, k)), H, k, far.sent[k]);
  }
}
