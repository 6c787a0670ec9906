/** The receiving half of a byte stream (lib/strm/base.cc): reassembly through the reorder list,
    the queue of segments ready to read, message boundaries and buffer accounting. */
module StreamReceive {
  import opened StreamSend

  /** An RxSegment: `skip` bytes at the front of the payload have been merged into the header. */
  datatype RxSegment = RxSegment(rsn: nat, body: seq<Byte>, skip: nat, flags: Flags) {
    predicate Valid() { skip <= |body| }
    function Size(): int { |body| - skip }
    function Bytes(): seq<Byte> requires Valid() { body[skip..] }
  }

  datatype Receiver = Receiver(
    rsn: nat,                  // next position expected
    ravail: int,               // bytes ready to read
    rmsgavail: int,            // of these, bytes after the last message boundary
    rbufused: int,
    rahead: seq<RxSegment>,    // received out of order
    rsegs: seq<RxSegment>,     // ready to read
    rmsgsize: seq<int>,        // sizes of complete messages
    endread: bool,
    readout: seq<Byte>,        // history: bytes handed to the application
    arrived: seq<Segment>)     // history: segments given to rxData

  const InitReceiver := Receiver(0, 0, 0, 0, [], [], [], false, [], [])

  predicate HasFlags(f: Flags) { f.push || f.message || f.close }

  // ---------- rxData ----------

  /** Append a segment that starts at rsn (after merging) to the readable queue. */
  function Consume(r: Receiver, x: RxSegment): Receiver
    requires x.Valid()
  {
    var avail := r.rmsgavail + x.Size();
    var ends := (x.flags.message || x.flags.close) && avail > 0;
    r.(rsegs := r.rsegs + [x], rsn := r.rsn + x.Size(),
       ravail := r.ravail + x.Size(), rbufused := r.rbufused + x.Size(),
       rmsgsize := if ends then r.rmsgsize + [avail] else r.rmsgsize,
       rmsgavail := if ends then 0 else avail)
  }

  /** Whether a segment at or before rsn still tells us something. */
  predicate Useful(rsn: nat, x: RxSegment) {
    x.rsn + |x.body| > rsn || (x.rsn + |x.body| == rsn && HasFlags(x.flags))
  }

  /** Pull everything contiguous from the reorder list; the second result says whether a segment
      with the close flag was consumed. */
  function Pull(r: Receiver, closed: bool): (Receiver, bool)
    decreases |r.rahead|
  {
    if r.rahead == [] || r.rahead[0].rsn > r.rsn then (r, closed)
    else
      var x := r.rahead[0];
      var r0 := r.(rahead := r.rahead[1..], rbufused := r.rbufused - x.Size());
      if !Useful(r.rsn, x) then Pull(r0, closed)
      else Pull(Consume(r0, x.(skip := r.rsn - x.rsn)), closed || x.flags.close)
  }

  /** shutdown(Read) on a connected stream */
  function Shutdown(r: Receiver): Receiver {
    if r.endread then r
    else r.(ravail := 0, rmsgavail := 0, rbufused := 0, rahead := [], rsegs := [], rmsgsize := [], endread := true)
  }

  /** Number of entries that sort strictly before position v. */
  function LowerBound(q: seq<RxSegment>, v: nat): (k: nat)
    ensures k <= |q|
  {
    if q == [] || q[0].rsn >= v then 0 else 1 + LowerBound(q[1..], v)
  }

  predicate Redundant(q: seq<RxSegment>, lo: nat, x: RxSegment) {
    lo < |q| && q[lo].rsn == x.rsn && x.Size() <= q[lo].Size() && x.flags == q[lo].flags
  }

  /** Keep a segment beyond rsn, unless it repeats one we hold. */
  function Stash(r: Receiver, x: RxSegment): Receiver {
    var lo := LowerBound(r.rahead, x.rsn);
    if Redundant(r.rahead, lo, x) then r
    else r.(rahead := r.rahead[..lo] + [x] + r.rahead[lo..], rbufused := r.rbufused + x.Size())
  }

  /** rxData, up to the notifications and the window update at its end */
  function Accept(r: Receiver, sg: Segment): Receiver {
    var x := RxSegment(sg.tsn, sg.data, 0, sg.flags);
    if sg.tsn > r.rsn then Stash(r, x)
    else if !Useful(r.rsn, x) then r
    else
      var (r', closed) := Pull(Consume(r, x.(skip := r.rsn - x.rsn)), sg.flags.close);
      if closed && r'.ravail == 0 then Shutdown(r') else r'
  }

  function RxData(r: Receiver, sg: Segment): Receiver {
    var r1 := r.(arrived := r.arrived + [sg]);
    if r.endread then r1 else Accept(r1, sg)
  }

  // ---------- readData ----------

  /** One turn of the loop of readData; the second result is false when the loop must stop. */
  function ReadOne(r: Receiver): (Receiver, bool)
    requires r.rsegs != [] && r.rsegs[0].Valid()
  {
    var x := r.rsegs[0];
    var r1 := r.(rsegs := r.rsegs[1..], ravail := r.ravail - x.Size(), rbufused := r.rbufused - x.Size(),
                 readout := r.readout + x.Bytes());
    if r.rmsgsize != [] then
      var head := r.rmsgsize[0] - x.Size();
      if head == 0 then (r1.(rmsgsize := r.rmsgsize[1..]), false)
      else (CloseIf(r1.(rmsgsize := [head] + r.rmsgsize[1..]), x.flags), true)
    else (CloseIf(r1.(rmsgavail := r.rmsgavail - x.Size()), x.flags), true)
  }

  function CloseIf(r: Receiver, f: Flags): Receiver {
    if f.close then Shutdown(r) else r
  }

  /** readData(data, maxSize); a segment that does not fit stops the model (see Fits). */
  function ReadData(r: Receiver, max: int): Receiver
    decreases |r.rsegs|
  {
    if max <= 0 || r.ravail <= 0 || r.rsegs == [] || !r.rsegs[0].Valid() || r.rsegs[0].Size() > max then r
    else
      var (r1, more) := ReadOne(r);
      if more && |r1.rsegs| < |r.rsegs| then ReadData(r1, max - r.rsegs[0].Size()) else r1
  }

  /** The read never has to split a segment. */
  predicate Fits(r: Receiver, max: int)
    decreases |r.rsegs|
  {
    max <= 0 || r.ravail <= 0 || r.rsegs == [] || !r.rsegs[0].Valid() ||
    (r.rsegs[0].Size() <= max &&
     (ReadOne(r).1 && |ReadOne(r).0.rsegs| < |r.rsegs| ==> Fits(ReadOne(r).0, max - r.rsegs[0].Size())))
  }
}
