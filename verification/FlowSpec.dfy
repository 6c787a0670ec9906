/** The flow layer as a state and its steps (lib/flow.cc, lib/flow.h): sequence numbers, replay
    mask, transmit records, acknowledgment processing, loss inference and TCP-style congestion
    control.  The layer above is a parameter: its virtual acked, missed, expire, readyTransmit and
    flowReceive are function values that answer with the calls they make back into the flow. */
module FlowSpec {
  import opened Words

  const CWND_MIN := 2
  const CWND_MAX := 0x10_0000
  const MISS_THRESH := 3
  const ACK_PACKET_SIZE := 12
  const ACK_EVERY := 4

  function Min(a: int, b: int): int { if a <= b then a else b }
  function Max(a: int, b: int): int { if a >= b then a else b }

  // ---------- packets ----------

  /** A packet is either a bare acknowledgment or carries upper-layer data. */
  datatype Body<+P> = Bare | Data(payload: P)

  datatype Packet<+P> = Packet(ackword: nat, body: Body<P>)

  /** What arrives from the network: a cleartext number word and a body sealed by the peer under
      the number `seal`.  Authentication succeeds for that number only. */
  datatype Wire<+P> = Wire(word: nat, seal: nat, pkt: Packet<P>) | Forged(word: nat)

  predicate RxDec<P>(n: int, w: Wire<P>) {
    w.Wire? && w.seal == n
  }

  // ---------- state ----------

  datatype TxEvent = TxEvent(size: nat, data: bool, pipe: bool)

  datatype Tx = Tx(
    txseq: nat,             // next number to transmit
    txevtseq: nat,          // number of the oldest record
    txevts: seq<TxEvent>,   // transmit records
    txackseq: nat,          // highest number acknowledged
    txackmask: Mask,
    txfltcnt: int,          // data packets in flight
    txfltsize: int)         // data bytes in flight

  datatype Cc = Cc(cwnd: nat, cwndlim: bool, ssthresh: nat, recovseq: nat, markseq: nat)

  datatype Rx = Rx(rxseq: nat, rxmask: Mask, rxackseq: nat, rxackct: nat, rxunacked: nat)

  /** Notifications to the layer above; Ready is any other chance for it to transmit. */
  datatype Note = Acked(n: int, rxseq: int) | Missed(n: int) | Expired(n: int) | Ready

  /** A window cut: the packet whose loss caused it, and txseq at that moment. */
  datatype Cut = Cut(lost: int, at: nat)

  /** What has happened so far; no step reads it. */
  datatype History<+P> = History(
    sent: seq<Packet<P>>,     // packet n is sent[n]; number 0 is the fictitious first packet
    notes: seq<Note>,
    credited: seq<int>,       // numbers counted in newpackets, in order
    cuts: seq<Cut>,
    accepted: seq<int>,       // numbers that passed replay protection and authentication
    acknowledged: set<int>,   // numbers given to acknowledge()
    promised: set<int>)       // of these, the ones to be reported (sendack)

  datatype Flow<+P> = Flow(tx: Tx, cc: Cc, rx: Rx, hist: History<P>)

  function InitFlow<P>(): Flow<P> {
    Flow(Tx(1, 0, [TxEvent(0, false, false)], 0, {0}, 0, 0),
         Cc(CWND_MIN, true, CWND_MAX, 1, 1),
         Rx(0, {0}, 0, 0, 0),
         History([Packet(0, Bare)], [], [0], [], [0], {0}, {}))
  }

  // ---------- the layer above ----------

  /** Calls the upper layer makes into the flow: flowTransmit(p), or mayTransmit(). */
  datatype Req<+P> = Send(p: P) | Probe

  /** What flowReceive does about acknowledging: return true, call acknowledge(n, false) itself,
      or pretend the packet never came. */
  datatype Verdict = AckSoon | AckQuietly | Ignore

  datatype Upper<!U, !P> = Upper(
    note: (U, Note, nat) -> (U, seq<Req<P>>),
    recv: (U, int, Body<P>) -> (U, Verdict),
    size: P -> nat)

  /** One side of a connection. */
  datatype End<U, +P> = End(fl: Flow<P>, up: U)

  // ---------- transmission ----------

  /** Flow::tx */
  function TxPacket<P>(f: Flow<P>, word: nat, body: Body<P>, size: nat): Flow<P> {
    var t := f.tx;
    f.(tx := t.(txseq := t.txseq + 1,
                txevts := t.txevts + [TxEvent(size, body.Data?, body.Data?)],
                txfltcnt := if body.Data? then t.txfltcnt + 1 else t.txfltcnt,
                txfltsize := if body.Data? then t.txfltsize + size else t.txfltsize),
       hist := f.hist.(sent := f.hist.sent + [Packet(word, body)]))
  }

  /** Flow::flowTransmit: a data packet repeats the latest acknowledgment. */
  function FlowTransmit<P>(f: Flow<P>, p: P, size: nat): Flow<P> {
    TxPacket(f.(rx := f.rx.(rxunacked := 0)), PackAck(f.rx.rxackseq, f.rx.rxackct), Data(p), size)
  }

  /** Flow::transmitAck */
  function TransmitAck<P>(f: Flow<P>, ackseq: nat, ackct: nat): Flow<P> {
    TxPacket(f, PackAck(ackseq, ackct), Bare, ACK_PACKET_SIZE)
  }

  /** Flow::flushack */
  function FlushAck<P>(f: Flow<P>): Flow<P> {
    if f.rx.rxunacked != 0 then
      TransmitAck(f.(rx := f.rx.(rxunacked := 0)), f.rx.rxackseq, f.rx.rxackct)
    else f
  }

  /** Flow::mayTransmit */
  function MayTransmit<P>(f: Flow<P>): Flow<P> {
    if f.cc.cwnd > f.tx.txfltcnt then f else f.(cc := f.cc.(cwndlim := true))
  }

  function Serve<P>(f: Flow<P>, size: P -> nat, reqs: seq<Req<P>>): Flow<P>
    decreases |reqs|
  {
    if reqs == [] then f
    else
      Serve(match reqs[0]
            case Send(p) => FlowTransmit(f, p, size(p))
            case Probe => MayTransmit(f), size, reqs[1..])
  }

  /** One upcall, with everything the upper layer transmits during it. */
  function Notify<U, P>(e: End<U, P>, h: Upper<U, P>, note: Note): End<U, P> {
    var (u, reqs) := h.note(e.up, note, e.fl.tx.txseq);
    End(Serve(e.fl.(hist := e.fl.hist.(notes := e.fl.hist.notes + [note])), h.size, reqs), u)
  }

  // ---------- settling records ----------

  predicate PipeAt(t: Tx, n: int) {
    t.txevtseq <= n < t.txevtseq + |t.txevts| && t.txevts[n - t.txevtseq].pipe
  }

  function ClearPipe(t: Tx, n: int): Tx
    requires PipeAt(t, n)
  {
    var e := t.txevts[n - t.txevtseq];
    t.(txevts := t.txevts[n - t.txevtseq := e.(pipe := false)],
       txfltcnt := t.txfltcnt - 1,
       txfltsize := t.txfltsize - e.size)
  }

  /** Flow::ccMissed in CC_TCP mode */
  function CcMissed<P>(f: Flow<P>, n: int): Flow<P> {
    if n <= f.cc.recovseq then f
    else
      var half := Max(f.cc.cwnd / 2, CWND_MIN);
      f.(cc := f.cc.(ssthresh := half, cwnd := half, recovseq := f.tx.txseq),
         hist := f.hist.(cuts := f.hist.cuts + [Cut(n, f.tx.txseq)]))
  }

  /** Why a record leaves the pipe. */
  datatype Cause = ByAck(rxseq: int) | ByLoss | ByTimeout

  function Settle<U, P>(e: End<U, P>, h: Upper<U, P>, n: int, why: Cause): End<U, P> {
    if !PipeAt(e.fl.tx, n) then e
    else
      var f := e.fl.(tx := ClearPipe(e.fl.tx, n));
      match why
      case ByAck(rxseq) => Notify(e.(fl := f), h, Acked(n, rxseq))
      case ByLoss => Notify(e.(fl := CcMissed(f, n)), h, Missed(n))
      case ByTimeout => Notify(e.(fl := f), h, Missed(n))
  }

  /** The loops of receive and rtxTimeout over record numbers n, n+1, ..., lim-1. */
  function SettleRange<U, P>(e: End<U, P>, h: Upper<U, P>, n: int, lim: int, why: Cause): End<U, P>
    decreases lim - n
  {
    if n >= lim then e else SettleRange(Settle(e, h, n, why), h, n + 1, lim, why)
  }

  /** Garbage collection of the records n, ..., lim-1, which leave the acknowledgment window. */
  function ExpireRange<U, P>(e: End<U, P>, h: Upper<U, P>, n: int, lim: int): End<U, P>
    decreases lim - n
  {
    if n >= lim || e.fl.tx.txevts == [] then e
    else
      ExpireRange(Notify(e.(fl := PopHead(e.fl)), h, Expired(n)), h, n + 1, lim)
  }

  function PopHead<P>(f: Flow<P>): Flow<P>
    requires f.tx.txevts != []
  {
    f.(tx := f.tx.(txevts := f.tx.txevts[1..], txevtseq := f.tx.txevtseq + 1))
  }

  // ---------- acknowledgments ----------

  function NumRange(lo: int, lim: int): (r: seq<int>)
    ensures forall k :: k in r <==> lo <= k < lim
    ensures |r| == if lo < lim then lim - lo else 0
    ensures forall i :: 0 <= i < |r| ==> r[i] == lo + i
    decreases lim - lo
  {
    if lo >= lim then [] else [lo] + NumRange(lo + 1, lim)
  }

  /** Rolling txackseq and txackmask forward by ackdiff, with `newct` newly counted numbers. */
  function RollAck<P>(f: Flow<P>, ackseq: nat, ackdiff: nat, newct: nat): Flow<P>
    requires newct <= MASK_BITS
  {
    f.(tx := f.tx.(txackseq := ackseq, txackmask := RollMask(f.tx.txackmask, ackdiff, newct)),
       hist := f.hist.(credited := f.hist.credited + NumRange(ackseq - newct + 1, ackseq + 1)))
  }

  /** The numbers receive() walks when it infers losses: from LossLow up to LossHigh. */
  function LossLow(ackseq: nat, ackdiff: nat): int {
    ackseq - Min(ackseq, MISS_THRESH + ackdiff - 1)
  }

  function LossHigh(ackseq: nat, newct: nat): int {
    ackseq - Min(ackseq, Max(MISS_THRESH, newct))
  }

  function NewCount(ackdiff: nat, ackct: nat): nat {
    Min(ackdiff, ackct + 1)
  }

  function RollMask(m: Mask, ackdiff: nat, newct: nat): Mask
    requires newct <= MASK_BITS
  {
    (if ackdiff < MASK_BITS then Shl(m, ackdiff) else {}) + Ones(newct)
  }

  /** The branch of receive() for an acknowledgment beyond txackseq: roll forward, report the newly
      acknowledged packets, infer losses ... */
  function Resettle<U, P>(e: End<U, P>, h: Upper<U, P>, ackseq: nat, ackdiff: nat, newct: nat, rxseq: int): End<U, P>
    requires newct <= MASK_BITS
  {
    var e1 := e.(fl := RollAck(e.fl, ackseq, ackdiff, newct));
    var e2 := SettleRange(e1, h, ackseq - newct + 1, ackseq + 1, ByAck(rxseq));
    SettleRange(e2, h, LossLow(ackseq, ackdiff), LossHigh(ackseq, newct) + 1, ByLoss)
  }

  /** ... and drop the records that left the window. */
  function Advance<U, P>(e: End<U, P>, h: Upper<U, P>, ackseq: nat, ackdiff: nat, ackct: nat, rxseq: int): End<U, P>
    requires ackct <= ACKCT_MAX
  {
    var e3 := Resettle(e, h, ackseq, ackdiff, NewCount(ackdiff, ackct), rxseq);
    if ackseq > MASK_BITS then ExpireRange(e3, h, e3.fl.tx.txevtseq, ackseq - MASK_BITS + 1) else e3
  }

  /** The loop over stragglers, for i from `i` up to ackct; `back` is -ackdiff and `cnt` the value
      of newpackets. */
  function Straggle<U, P>(e: End<U, P>, h: Upper<U, P>, i: nat, ackct: nat, back: nat, rxseq: int, cnt: nat)
    : (End<U, P>, nat)
    decreases ackct + 1 - i
  {
    if i > ackct || back + i >= MASK_BITS then (e, cnt)
    else if back + i in e.fl.tx.txackmask then Straggle(e, h, i + 1, ackct, back, rxseq, cnt)
    else
      var n := e.fl.tx.txackseq - (back + i);
      var e1 := e.(fl := Credit(e.fl, back + i));
      Straggle(Settle(e1, h, n, ByAck(rxseq)), h, i + 1, ackct, back, rxseq, cnt + 1)
  }

  /** Marking one more bit of txackmask. */
  function Credit<P>(f: Flow<P>, bit: nat): Flow<P>
    requires bit < MASK_BITS
  {
    f.(tx := f.tx.(txackmask := SetBit(f.tx.txackmask, bit)),
       hist := f.hist.(credited := f.hist.credited + [f.tx.txackseq - bit]))
  }

  /** The guard in front of that loop: some of the low ackct mask bits is clear. */
  predicate HasStragglers(t: Tx, ackct: nat)
    requires ackct <= ACKCT_MAX
  {
    t.txackmask * Ones(ackct) != Ones(ackct)
  }

  /** All acknowledgment processing for a header word, with the number of packets it newly counts. */
  function TakeAcks<U, P>(e: End<U, P>, h: Upper<U, P>, ackword: nat, rxseq: int): (End<U, P>, nat) {
    var ackct := AckCount(ackword);
    var ackdiff := SeqDiff(ackword, e.fl.tx.txackseq);
    if ackdiff > 0 then
      var e1 := Advance(e, h, e.fl.tx.txackseq + ackdiff, ackdiff, ackct, rxseq);
      Stragglers(e1, h, ackct, 0, rxseq, NewCount(ackdiff, ackct))
    else
      Stragglers(e, h, ackct, -ackdiff, rxseq, 0)
  }

  function Stragglers<U, P>(e: End<U, P>, h: Upper<U, P>, ackct: nat, back: nat, rxseq: int, cnt: nat)
    : (End<U, P>, nat)
    requires ackct <= ACKCT_MAX
  {
    if HasStragglers(e.fl.tx, ackct) then Straggle(e, h, 0, ackct, back, rxseq, cnt) else (e, cnt)
  }

  /** Slow start, additive increase once per round trip, and the clamp. */
  function GrowWindow<P>(f: Flow<P>, newpackets: nat, ackseq: int): Flow<P> {
    var c := f.cc;
    var c1 := if newpackets > 0 && c.cwndlim && c.cwnd < c.ssthresh
              then c.(cwnd := Min(c.cwnd + newpackets, c.ssthresh)) else c;
    var c2 := if ackseq >= c1.markseq
              then c1.(markseq := f.tx.txseq,
                       cwnd := if c1.cwndlim then c1.cwnd + 1 else c1.cwnd,
                       cwndlim := false)
              else c1;
    f.(cc := c2.(cwnd := Min(c2.cwnd, CWND_MAX)))
  }

  /** Flow::acknowledge; its parameter is a quint16. */
  function Acknowledge<P>(f0: Flow<P>, pktseq: nat, sendack: bool): Flow<P> {
    var n := pktseq % WORD16;
    var f := Noted(f0, pktseq, sendack);
    var seqdiff := Signed32(n - f.rx.rxackseq);
    if seqdiff == 1 then AckNext(f, n)
    else if seqdiff > 1 then AckJump(f, n, sendack)
    else if seqdiff < 0 then AckOld(f, n, sendack)
    else f
  }

  /** History: acknowledge() was called. */
  function Noted<P>(f: Flow<P>, pktseq: nat, sendack: bool): Flow<P> {
    f.(hist := f.hist.(acknowledged := f.hist.acknowledged + {pktseq},
                       promised := if sendack then f.hist.promised + {pktseq} else f.hist.promised))
  }

  /** The next packet in order: the run grows, and every few packets it is reported. */
  function AckNext<P>(f: Flow<P>, n: nat): Flow<P> {
    var g := f.(rx := f.rx.(rxackseq := n, rxackct := Min(f.rx.rxackct + 1, ACKCT_MAX),
                            rxunacked := f.rx.rxunacked + 1));
    if g.rx.rxunacked < ACK_EVERY then g else FlushAck(g)
  }

  /** A packet beyond a gap starts a new run. */
  function AckJump<P>(f: Flow<P>, n: nat, sendack: bool): Flow<P> {
    var g0 := FlushAck(f);
    var g := g0.(rx := g0.rx.(rxackseq := n, rxackct := 0));
    if sendack then TransmitAck(g, n, 0) else g
  }

  /** A packet out of order is reported on its own. */
  function AckOld<P>(f: Flow<P>, n: nat, sendack: bool): Flow<P> {
    var g := FlushAck(f);
    if sendack then TransmitAck(g, n, 0) else g
  }

  // ---------- replay protection ----------

  /** Whether receive() goes on to authenticate a packet that reads as number n. */
  predicate Admissible(r: Rx, seqdiff: int, n: int) {
    if seqdiff > 0 then n >= r.rxseq
    else -MASK_BITS < seqdiff && -seqdiff !in r.rxmask
  }

  function Record(r: Rx, seqdiff: int, n: nat): Rx
    requires -MASK_BITS < seqdiff
  {
    if seqdiff > 0 then
      r.(rxseq := n, rxmask := if seqdiff < MASK_BITS then SetBit(Shl(r.rxmask, seqdiff), 0) else {0})
    else r.(rxmask := SetBit(r.rxmask, -seqdiff))
  }

  // ---------- the three events ----------

  /** Hand the packet up, let the upper layer transmit, and acknowledge the packet as told. */
  function Deliver<U, P>(e: End<U, P>, h: Upper<U, P>, n: nat, body: Body<P>): End<U, P> {
    var (u, verdict) := h.recv(e.up, n, body);
    var quiet := if verdict == AckQuietly then Acknowledge(e.fl, n, false) else e.fl;
    var e1 := Notify(End(quiet, u), h, Ready);
    if verdict == AckSoon then e1.(fl := Acknowledge(e1.fl, n, true)) else e1
  }

  /** Flow::receive */
  function Receive<U, P>(e: End<U, P>, h: Upper<U, P>, w: Wire<P>): End<U, P> {
    var seqdiff := SeqDiff(w.word, e.fl.rx.rxseq);
    var n := Recover(w.word, e.fl.rx.rxseq);
    if Admissible(e.fl.rx, seqdiff, n) && RxDec(n, w)
    then Process(e.(fl := Accept(e.fl, seqdiff, n)), h, n, w.pkt)
    else e
  }

  function Accept<P>(f: Flow<P>, seqdiff: int, n: nat): Flow<P>
    requires -MASK_BITS < seqdiff
  {
    f.(rx := Record(f.rx, seqdiff, n), hist := f.hist.(accepted := f.hist.accepted + [n]))
  }

  /** What receive() does with packet n once it is accepted.  A header that acknowledges something
      not transmitted yet ends the processing. */
  function Process<U, P>(e: End<U, P>, h: Upper<U, P>, n: nat, pkt: Packet<P>): End<U, P> {
    var ackseq := Recover(pkt.ackword, e.fl.tx.txackseq);
    if ackseq >= e.fl.tx.txseq then e
    else
      var (e1, newpackets) := TakeAcks(e, h, pkt.ackword, n);
      var e2 := e1.(fl := GrowWindow(e1.fl, newpackets, ackseq));
      MoreIfAllowed(Deliver(e2, h, n, pkt.body), h, newpackets)
  }

  /** if (newpackets > 0 && mayTransmit()) readyTransmit(); */
  function MoreIfAllowed<U, P>(e: End<U, P>, h: Upper<U, P>, newpackets: nat): End<U, P> {
    if newpackets == 0 then e
    else if e.fl.cc.cwnd > e.fl.tx.txfltcnt then Notify(e, h, Ready)
    else e.(fl := MayTransmit(e.fl))
  }

  /** Flow::rtxTimeout */
  function RtxTimeout<U, P>(e: End<U, P>, h: Upper<U, P>): End<U, P> {
    var c := e.fl.cc.(ssthresh := Max(Max(e.fl.tx.txfltcnt, 0) / 2, CWND_MIN), cwnd := CWND_MIN);
    Notify(SettleRange(e.(fl := e.fl.(cc := c)), h, e.fl.tx.txevtseq, e.fl.tx.txseq, ByTimeout), h, Ready)
  }

  /** Flow::ackTimeout */
  function AckTimeout<U, P>(e: End<U, P>): End<U, P> {
    e.(fl := FlushAck(e.fl))
  }

  // ---------- runs ----------

  datatype FlowEvent<+P> = Arrive(w: Wire<P>) | RtxFires | AckFires | UpperActs

  function FlowStep<U, P>(e: End<U, P>, h: Upper<U, P>, ev: FlowEvent<P>): End<U, P> {
    match ev
    case Arrive(w) => Receive(e, h, w)
    case RtxFires => RtxTimeout(e, h)
    case AckFires => AckTimeout(e)
    case UpperActs => Notify(e, h, Ready)
  }

  function FlowRun<U, P>(e: End<U, P>, h: Upper<U, P>, evs: seq<FlowEvent<P>>): End<U, P>
    decreases |evs|
  {
    if evs == [] then e else FlowStep(FlowRun(e, h, evs[..|evs| - 1]), h, evs[|evs| - 1])
  }
}
