/** Two endpoints over a network that loses, repeats, delays and reorders packets.  Each endpoint is
    a flow with one attached stream in each direction; everything else that shares the flow (other
    streams, control packets) appears as packets with a foreign payload. */
module Connection {
  import opened FlowSpec
  import opened StreamSend
  import Recv = StreamReceive

  /** A segment of our stream, or something else and what the peer's flowReceive does about it. */
  datatype Payload = Seg(sg: Segment) | Other(verdict: Verdict, len: nat)

  function PayloadSize(p: Payload): nat {
    match p
    case Seg(sg) => 16 + |sg.data|
    case Other(_, len) => 8 + len
  }

  /** What the application and the streams do with an upcall. */
  datatype Act =
    | Write(data: seq<Byte>, flags: Flags)   // one turn of writeData
    | SendNext                               // transmit one packet of our stream
    | SendOther(p: Payload)                  // some other packet on this flow
    | Detach(n: nat)                         // give back packet n to the stream
    | Probe                                  // mayTransmit()
    | Read(max: nat)                         // readData, when it splits no segment

  /** The stream of one endpoint.  `script` holds the acts of the coming upcalls; `sidseq` is the
      packet number from which the peer's attachment counts. */
  datatype Strm = Strm(snd: Sender, rcv: Recv.Receiver, script: seq<seq<Act>>, sidseq: nat)

  function DoAct(u: Strm, a: Act, txseq: nat): (Strm, seq<Req<Payload>>) {
    match a
    case Write(data, flags) =>
      (if MayWrite(u.snd, data, flags) then u.(snd := WriteSegment(u.snd, data, flags)) else u, [])
    case SendNext =>
      var sent := Transmitted(u.snd);
      (u.(snd := Transmit(u.snd, txseq)), if sent == [] then [] else [Send(Seg(sent[0]))])
    case SendOther(p) => (u, if p.Other? then [Send(p)] else [])
    case Detach(n) => (u.(snd := GiveBack(u.snd, n)), [])
    case Probe => (u, [Req.Probe])
    case Read(max) => (if Recv.Fits(u.rcv, max) then u.(rcv := Recv.ReadData(u.rcv, max)) else u, [])
  }

  function SendCount(reqs: seq<Req<Payload>>): nat {
    if reqs == [] then 0 else SendCount(reqs[..|reqs| - 1]) + if reqs[|reqs| - 1].Send? then 1 else 0
  }

  function DoActs(u: Strm, acts: seq<Act>, txseq: nat): (Strm, seq<Req<Payload>>)
    decreases |acts|
  {
    if acts == [] then (u, [])
    else
      var (u1, r1) := DoAct(u, acts[0], txseq);
      var (u2, r2) := DoActs(u1, acts[1..], txseq + SendCount(r1));
      (u2, r1 + r2)
  }

  /** The next upcall's acts. */
  function Played(u: Strm, txseq: nat): (Strm, seq<Req<Payload>>) {
    if u.script == [] then (u, []) else DoActs(u.(script := u.script[1..]), u.script[0], txseq)
  }

  /** StreamFlow::acked, missed and expire */
  function Told(u: Strm, x: Note): Strm {
    match x
    case Acked(n, _) => u.(snd := StreamSend.Acked(u.snd, n))
    case Missed(n) => u.(snd := StreamSend.Missed(u.snd, n))
    case Expired(n) => u.(snd := Expire(u.snd, n))
    case Ready => u
  }

  function OnNote(u: Strm, x: Note, txseq: nat): (Strm, seq<Req<Payload>>) {
    Played(Told(u, x), txseq)
  }

  /** StreamFlow::flowReceive: a segment older than the attachment is dropped without a word. */
  function Taken(u: Strm, n: int, body: Body<Payload>): (Strm, Verdict) {
    match body
    case Bare => (u, AckQuietly)
    case Data(Other(v, _)) => (u, v)
    case Data(Seg(sg)) =>
      if n < u.sidseq then (u, Ignore) else (u.(rcv := Recv.RxData(u.rcv, sg)), AckSoon)
  }

  const H := Upper(OnNote, Taken, PayloadSize)

  // ---------- the system ----------

  type Node = End<Strm, Payload>

  datatype System = System(a: Node, b: Node)

  function InitNode(sidseq: nat): Node {
    End(InitFlow(), Strm(InitSender, Recv.InitReceiver, [], sidseq))
  }

  /** `here` says at which endpoint an event happens: true for a. */
  datatype Event =
    | Deliver(here: bool, k: nat, word: nat, script: seq<seq<Act>>)   // the peer's packet k arrives
    | Junk(here: bool, word: nat)                                     // something unauthentic arrives
    | RtxTimer(here: bool, script: seq<seq<Act>>)
    | AckTimer(here: bool)
    | Local(here: bool, script: seq<seq<Act>>)

  function At(s: System, here: bool): Node { if here then s.a else s.b }

  function Put(s: System, here: bool, e: Node): System { if here then s.(a := e) else s.(b := e) }

  function WithScript(e: Node, script: seq<seq<Act>>): Node {
    e.(up := e.up.(script := script))
  }

  function NodeStep(e: Node, peer: Node, ev: Event): Node {
    match ev
    case Deliver(_, k, word, script) =>
      if 0 < k < |peer.fl.hist.sent|
      then Receive(WithScript(e, script), H, Wire(word, k, peer.fl.hist.sent[k])) else e
    case Junk(_, word) => Receive(e, H, Forged(word))
    case RtxTimer(_, script) => RtxTimeout(WithScript(e, script), H)
    case AckTimer(_) => AckTimeout(e)
    case Local(_, script) => Notify(WithScript(e, script), H, Ready)
  }

  function Step(s: System, ev: Event): System {
    Put(s, ev.here, NodeStep(At(s, ev.here), At(s, !ev.here), ev))
  }

  function Run(s: System, evs: seq<Event>): System
    decreases |evs|
  {
    if evs == [] then s else Step(Run(s, evs[..|evs| - 1]), evs[|evs| - 1])
  }
}
