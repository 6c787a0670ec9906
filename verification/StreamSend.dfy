/** The sending half of a byte stream (lib/strm/base.cc, lib/strm/sflow.cc): segments written,
    queued, in flight, acknowledged, lost, expired or returned when a flow detaches. */
module StreamSend {

  const MTU := 1200

  type Byte = b: int | 0 <= b < 256

  datatype Flags = Flags(push: bool, message: bool, close: bool)

  const NO_FLAGS := Flags(false, false, false)

  /** A DataPacket: its position in the stream, its payload and its signal flags. */
  datatype Segment = Segment(tsn: nat, data: seq<Byte>, flags: Flags) {
    function End(): nat { tsn + |data| }
  }

  /** A segment as the flow's ackwait table holds it. */
  datatype Pending = Pending(sg: Segment, late: bool)

  datatype Sender = Sender(
    tasn: nat,                    // next position to assign
    endwrite: bool,
    twait: set<nat>,              // positions of segments not yet acknowledged
    twaitsize: int,
    tflt: int,                    // bytes in flight
    tqueue: seq<Segment>,         // to be transmitted, by position
    ackwait: map<nat, Pending>,   // by packet number
    written: seq<Byte>,           // history: all bytes written
    cut: seq<Segment>)            // history: the segments they were cut into

  const InitSender := Sender(0, false, {}, 0, 0, [], map[], [], [])

  // ---------- steps ----------

  /** txenqueue: keep the queue in order of position, first in first out among equals. */
  function Enqueue(q: seq<Segment>, sg: Segment): seq<Segment> {
    if q == [] || q[|q| - 1].tsn <= sg.tsn then q + [sg]
    else Enqueue(q[..|q| - 1], sg) + [q[|q| - 1]]
  }

  /** One turn of the loop of writeData. */
  function WriteSegment(s: Sender, data: seq<Byte>, flags: Flags): Sender {
    var sg := Segment(s.tasn, data, flags);
    s.(tasn := s.tasn + |data|, endwrite := s.endwrite || flags.close,
       twait := s.twait + {s.tasn}, twaitsize := s.twaitsize + |data|,
       tqueue := Enqueue(s.tqueue, sg),
       written := s.written + data, cut := s.cut + [sg])
  }

  /** transmit: drop queue heads no longer waited for. */
  function Collected(q: seq<Segment>, twait: set<nat>): seq<Segment> {
    if q == [] || q[0].tsn in twait then q else Collected(q[1..], twait)
  }

  /** transmit: send the first queued segment as packet n. */
  function Transmit(s: Sender, n: nat): Sender {
    var q := Collected(s.tqueue, s.twait);
    if q == [] then s.(tqueue := [])
    else s.(tqueue := q[1..], tflt := s.tflt + |q[0].data|, ackwait := s.ackwait[n := Pending(q[0], false)])
  }

  function Transmitted(s: Sender): seq<Segment> {
    Collected(s.tqueue, s.twait)[..if Collected(s.tqueue, s.twait) == [] then 0 else 1]
  }

  /** acked */
  function Acked(s: Sender, n: int): Sender {
    if n !in s.ackwait then s
    else
      var sg := s.ackwait[n].sg;
      s.(ackwait := s.ackwait - {n}, tflt := s.tflt - |sg.data|,
         twait := s.twait - {sg.tsn},
         twaitsize := if sg.tsn in s.twait then s.twaitsize - |sg.data| else s.twaitsize)
  }

  /** missed: queue the segment again but keep the record until it expires. */
  function Missed(s: Sender, n: int): Sender {
    if n !in s.ackwait || s.ackwait[n].late then s
    else
      var sg := s.ackwait[n].sg;
      s.(ackwait := s.ackwait[n := Pending(sg, true)], tflt := s.tflt - |sg.data|,
         tqueue := Enqueue(s.tqueue, sg))
  }

  /** expire */
  function Expire(s: Sender, n: int): Sender {
    s.(ackwait := s.ackwait - {n})
  }

  /** One turn of the loops of StreamTxAttachment::clear and detachAll: give packet n back. */
  function GiveBack(s: Sender, n: int): Sender {
    Expire(Missed(s, n), n)
  }

  // ---------- the invariant ----------

  /** Positions of queued segments. */
  function Queued(q: seq<Segment>): set<nat> {
    set sg | sg in q :: sg.tsn
  }

  predicate LiveAt(w: map<nat, Pending>, n: int) {
    n in w && !w[n].late
  }

  /** Positions of segments in flight and not presumed lost. */
  function Flight(w: map<nat, Pending>): set<nat> {
    set n | n in w && !w[n].late :: w[n].sg.tsn
  }

  ghost predicate Ascending(q: seq<Segment>) {
    forall i, j :: 0 <= i < j < |q| ==> q[i].tsn < q[j].tsn
  }

  ghost predicate FlightDistinct(w: map<nat, Pending>) {
    forall n, m :: LiveAt(w, n) && LiveAt(w, m) && n != m ==> w[n].sg.tsn != w[m].sg.tsn
  }

  /** Every position waited for has exactly one live copy: one queue entry or one packet in flight
      that is not presumed lost. */
  ghost predicate OneCopy(s: Sender) {
    && Ascending(s.tqueue)
    && FlightDistinct(s.ackwait)
    && Queued(s.tqueue) !! Flight(s.ackwait)
    && s.twait == Queued(s.tqueue) + Flight(s.ackwait)
  }

  /** The segments lie end to end from position 0. */
  ghost predicate Abutting(cut: seq<Segment>, len: nat) {
    && (|cut| > 0 ==> cut[0].tsn == 0)
    && (forall i :: 0 <= i < |cut| - 1 ==> cut[i + 1].tsn == cut[i].End())
    && len == (if cut == [] then 0 else cut[|cut| - 1].End())
  }

  /** Each holds the bytes written at its place. */
  ghost predicate Copies(cut: seq<Segment>, written: seq<Byte>) {
    forall i :: 0 <= i < |cut| ==> cut[i].End() <= |written| && cut[i].data == written[cut[i].tsn..cut[i].End()]
  }

  /** Only a closing segment is empty, and only the last one closes. */
  ghost predicate Closing(cut: seq<Segment>, closed: bool) {
    && (forall i :: 0 <= i < |cut| && cut[i].data == [] ==> cut[i].flags.close)
    && (forall i :: 0 <= i < |cut| - 1 ==> !cut[i].flags.close)
    && (closed <==> |cut| > 0 && cut[|cut| - 1].flags.close)
  }

  /** The segments cut so far tile the bytes written. */
  ghost predicate Tiles(cut: seq<Segment>, written: seq<Byte>, closed: bool) {
    Abutting(cut, |written|) && Copies(cut, written) && Closing(cut, closed)
  }

  /** Bytes of the segments at the given positions. */
  function BytesAt(cut: seq<Segment>, at: set<nat>): nat {
    if cut == [] then 0
    else BytesAt(cut[..|cut| - 1], at) + if cut[|cut| - 1].tsn in at then |cut[|cut| - 1].data| else 0
  }

  ghost predicate Known(s: Sender) {
    && (forall i :: 0 <= i < |s.tqueue| ==> s.tqueue[i] in s.cut)
    && (forall n :: n in s.ackwait ==> s.ackwait[n].sg in s.cut)
  }

  ghost predicate SenderOk(s: Sender) {
    && OneCopy(s)
    && Known(s)
    && Tiles(s.cut, s.written, s.endwrite)
    && s.tasn == |s.written|
    && s.twaitsize == BytesAt(s.cut, s.twait)
    && s.tflt == BytesAt(s.cut, Flight(s.ackwait))
  }

  // ---------- tiling ----------

  lemma {:induction false} TileOrder(cut: seq<Segment>, w: seq<Byte>, closed: bool, i: nat, j: nat)
    requires Tiles(cut, w, closed) && i < j < |cut|
    ensures cut[i].tsn < cut[i].End() <= cut[j].tsn
    decreases j - i
  {
    if i + 1 < j { TileOrder(cut, w, closed, i + 1, j); }
  }

  /** Positions identify segments. */
  lemma TileUnique(cut: seq<Segment>, w: seq<Byte>, closed: bool, x: Segment, y: Segment)
    requires Tiles(cut, w, closed) && x in cut && y in cut && x.tsn == y.tsn
    ensures x == y
  {
    var i :| 0 <= i < |cut| && cut[i] == x;
    var j :| 0 <= j < |cut| && cut[j] == y;
    if i < j { TileOrder(cut, w, closed, i, j); }
    if j < i { TileOrder(cut, w, closed, j, i); }
  }

  lemma AbuttingAppend(cut: seq<Segment>, len: nat, sg: Segment)
    requires Abutting(cut, len) && sg.tsn == len
    ensures Abutting(cut + [sg], len + |sg.data|)
  {
    var cut' := cut + [sg];
    forall i | 0 <= i < |cut'| - 1 ensures cut'[i + 1].tsn == cut'[i].End() {
      if i < |cut| - 1 { assert cut[i + 1].tsn == cut[i].End(); }
    }
  }

  lemma CopiesAppend(cut: seq<Segment>, w: seq<Byte>, sg: Segment)
    requires Copies(cut, w) && sg.tsn == |w|
    ensures Copies(cut + [sg], w + sg.data)
  {
    var cut', w' := cut + [sg], w + sg.data;
    forall i | 0 <= i < |cut'| ensures cut'[i].End() <= |w'| && cut'[i].data == w'[cut'[i].tsn..cut'[i].End()] {
      if i < |cut| {
        assert cut'[i] == cut[i];
        SliceGrows(w, sg.data, cut[i].tsn, cut[i].End());
      }
    }
  }

  lemma SliceGrows(w: seq<Byte>, more: seq<Byte>, i: nat, j: nat)
    requires i <= j <= |w|
    ensures (w + more)[i..j] == w[i..j]
  {
  }

  lemma ClosingAppend(cut: seq<Segment>, sg: Segment)
    requires Closing(cut, false) && (sg.data != [] || sg.flags.close)
    ensures Closing(cut + [sg], sg.flags.close)
  {
    assert forall i :: 0 <= i < |cut| ==> !cut[i].flags.close;
  }

  lemma TileAppend(cut: seq<Segment>, w: seq<Byte>, data: seq<Byte>, flags: Flags)
    requires Tiles(cut, w, false) && (data != [] || flags.close)
    ensures Tiles(cut + [Segment(|w|, data, flags)], w + data, flags.close)
  {
    hide Abutting, Copies, Closing;
    AbuttingAppend(cut, |w|, Segment(|w|, data, flags));
    CopiesAppend(cut, w, Segment(|w|, data, flags));
    ClosingAppend(cut, Segment(|w|, data, flags));
  }

  /** All positions cut so far lie below the end of an open stream. */
  lemma TileBelow(cut: seq<Segment>, w: seq<Byte>, x: Segment)
    requires Tiles(cut, w, false) && x in cut
    ensures x.tsn < |w|
  {
  }

  // ---------- byte totals ----------

  ghost predicate TsnDistinct(cut: seq<Segment>) {
    forall i, j :: 0 <= i < j < |cut| ==> cut[i].tsn != cut[j].tsn
  }

  lemma TilesDistinct(cut: seq<Segment>, w: seq<Byte>, closed: bool)
    requires Tiles(cut, w, closed)
    ensures TsnDistinct(cut)
  {
    forall i, j | 0 <= i < j < |cut| ensures cut[i].tsn != cut[j].tsn { TileOrder(cut, w, closed, i, j); }
  }

  lemma {:induction false} BytesSame(cut: seq<Segment>, at: set<nat>, at': set<nat>)
    requires forall sg :: sg in cut ==> (sg.tsn in at <==> sg.tsn in at')
    ensures BytesAt(cut, at) == BytesAt(cut, at')
  {
    if cut != [] { BytesSame(cut[..|cut| - 1], at, at'); }
  }

  lemma {:induction false} BytesInsert(cut: seq<Segment>, at: set<nat>, x: Segment)
    requires TsnDistinct(cut) && x in cut && x.tsn !in at
    ensures BytesAt(cut, at + {x.tsn}) == BytesAt(cut, at) + |x.data|
  {
    var k := |cut| - 1;
    if cut[k] == x {
      BytesSame(cut[..k], at, at + {x.tsn});
    } else {
      assert x in cut[..k];
      BytesInsert(cut[..k], at, x);
    }
  }

  lemma BytesDelete(cut: seq<Segment>, at: set<nat>, x: Segment)
    requires TsnDistinct(cut) && x in cut && x.tsn in at
    ensures BytesAt(cut, at - {x.tsn}) == BytesAt(cut, at) - |x.data|
  {
    BytesInsert(cut, at - {x.tsn}, x);
    assert at - {x.tsn} + {x.tsn} == at;
  }

  // ---------- the queue ----------

  lemma {:induction false} EnqueueHas(q: seq<Segment>, sg: Segment)
    ensures |Enqueue(q, sg)| == |q| + 1 && forall x :: x in Enqueue(q, sg) <==> x in q || x == sg
  {
    if q != [] && q[|q| - 1].tsn > sg.tsn {
      EnqueueHas(q[..|q| - 1], sg);
      assert q == q[..|q| - 1] + [q[|q| - 1]];
    }
  }

  lemma AscendingAppend(q: seq<Segment>, x: Segment)
    requires Ascending(q) && forall y :: y in q ==> y.tsn < x.tsn
    ensures Ascending(q + [x])
  {
    forall i, j | 0 <= i < j < |q + [x]| ensures (q + [x])[i].tsn < (q + [x])[j].tsn {
      if j == |q| { assert q[i] in q; }
    }
  }

  lemma AscendingBelow(q: seq<Segment>, y: Segment)
    requires Ascending(q) && q != [] && y in q[..|q| - 1]
    ensures y.tsn < q[|q| - 1].tsn
  {
  }

  lemma AscendingTop(q: seq<Segment>, t: nat)
    requires Ascending(q) && (q == [] || q[|q| - 1].tsn <= t) && t !in Queued(q)
    ensures forall y :: y in q ==> y.tsn < t
  {
    forall y | y in q ensures y.tsn < t {
      var i :| 0 <= i < |q| && q[i] == y;
      assert i == |q| - 1 || q[i].tsn < q[|q| - 1].tsn;
    }
  }

  lemma {:induction false} EnqueueKeeps(q: seq<Segment>, sg: Segment)
    requires Ascending(q) && sg.tsn !in Queued(q)
    ensures Ascending(Enqueue(q, sg))
    ensures forall x :: x in Enqueue(q, sg) <==> x in q || x == sg
  {
    EnqueueHas(q, sg);
    if q != [] && q[|q| - 1].tsn > sg.tsn {
      var init, last := q[..|q| - 1], q[|q| - 1];
      EnqueueKeeps(init, sg);
      forall y | y in Enqueue(init, sg) ensures y.tsn < last.tsn {
        if y != sg { AscendingBelow(q, y); }
      }
      AscendingAppend(Enqueue(init, sg), last);
    } else {
      AscendingTop(q, sg.tsn);
      AscendingAppend(q, sg);
    }
  }

  lemma EnqueueSet(q: seq<Segment>, sg: Segment)
    requires Ascending(q) && sg.tsn !in Queued(q)
    ensures Queued(Enqueue(q, sg)) == Queued(q) + {sg.tsn}
  {
    EnqueueKeeps(q, sg);
  }

  /** The queue holds nothing that was acknowledged: the collection loop of transmit() finds none. */
  lemma NothingToCollect(s: Sender)
    requires OneCopy(s)
    ensures Collected(s.tqueue, s.twait) == s.tqueue
  {
    if s.tqueue != [] { assert s.tqueue[0] in s.tqueue; }
  }

  // ---------- packets in flight ----------

  lemma FlightAdd(w: map<nat, Pending>, n: nat, sg: Segment)
    requires n !in w && FlightDistinct(w) && sg.tsn !in Flight(w)
    ensures Flight(w[n := Pending(sg, false)]) == Flight(w) + {sg.tsn}
    ensures FlightDistinct(w[n := Pending(sg, false)])
  {
    var w' := w[n := Pending(sg, false)];
    forall t ensures t in Flight(w') <==> t in Flight(w) || t == sg.tsn {
      if t in Flight(w) { var m :| LiveAt(w, m) && w[m].sg.tsn == t; assert LiveAt(w', m); }
      assert LiveAt(w', n);
    }
    forall m | LiveAt(w, m) ensures w[m].sg.tsn != sg.tsn { assert w[m].sg.tsn in Flight(w); }
  }

  lemma FlightDrop(w: map<nat, Pending>, n: int, w': map<nat, Pending>)
    requires LiveAt(w, n) && FlightDistinct(w)
    requires forall m :: LiveAt(w', m) <==> LiveAt(w, m) && m != n
    requires forall m :: LiveAt(w', m) ==> w'[m] == w[m]
    ensures Flight(w') == Flight(w) - {w[n].sg.tsn}
    ensures FlightDistinct(w')
  {
    forall t ensures t in Flight(w') <==> t in Flight(w) && t != w[n].sg.tsn {
      if t in Flight(w) && t != w[n].sg.tsn {
        var m :| LiveAt(w, m) && w[m].sg.tsn == t;
        assert LiveAt(w', m);
      }
      if t in Flight(w') {
        var m :| LiveAt(w', m) && w'[m].sg.tsn == t;
        assert LiveAt(w, m);
      }
    }
  }

  // ---------- every step keeps the sender in order ----------

  /** What a caller of writeData may ask for: an open stream, and bytes or the end of it. */
  predicate MayWrite(s: Sender, data: seq<Byte>, flags: Flags) {
    !s.endwrite && (data != [] || flags.close)
  }

  lemma FreshPosition(s: Sender)
    requires SenderOk(s) && !s.endwrite
    ensures s.tasn !in s.twait && forall sg :: sg in s.cut ==> sg.tsn != s.tasn
  {
    forall sg | sg in s.cut ensures sg.tsn < s.tasn { TileBelow(s.cut, s.written, sg); }
    forall t | t in s.twait ensures t < s.tasn {
      if t in Queued(s.tqueue) {
        var sg :| sg in s.tqueue && sg.tsn == t;
      } else {
        var n :| LiveAt(s.ackwait, n) && s.ackwait[n].sg.tsn == t;
      }
    }
  }

  lemma BytesAppend(cut: seq<Segment>, at: set<nat>, sg: Segment)
    ensures BytesAt(cut + [sg], at) == BytesAt(cut, at) + if sg.tsn in at then |sg.data| else 0
  {
    assert (cut + [sg])[..|cut|] == cut;
  }

  lemma WriteOneCopy(s: Sender, sg: Segment)
    requires OneCopy(s) && sg.tsn !in s.twait
    ensures OneCopy(s.(tqueue := Enqueue(s.tqueue, sg), twait := s.twait + {sg.tsn}))
  {
    EnqueueKeeps(s.tqueue, sg);
    EnqueueSet(s.tqueue, sg);
  }

  lemma WriteKeeps(s: Sender, data: seq<Byte>, flags: Flags)
    requires SenderOk(s) && MayWrite(s, data, flags)
    ensures SenderOk(WriteSegment(s, data, flags))
  {
    hide Enqueue, Ascending, FlightDistinct, BytesAt, Tiles, Queued, Flight;
    var s', sg := WriteSegment(s, data, flags), Segment(s.tasn, data, flags);
    FreshPosition(s);
    WriteOneCopy(s, sg);
    TileAppend(s.cut, s.written, data, flags);
    WriteKnown(s, sg);
    BytesAppend(s.cut, s'.twait, sg);
    BytesAppend(s.cut, Flight(s.ackwait), sg);
    BytesSame(s.cut, s.twait, s'.twait);
  }

  lemma WriteKnown(s: Sender, sg: Segment)
    requires OneCopy(s) && Known(s) && sg.tsn !in s.twait
    ensures Known(s.(tqueue := Enqueue(s.tqueue, sg), cut := s.cut + [sg]))
  {
    EnqueueKeeps(s.tqueue, sg);
    var q := Enqueue(s.tqueue, sg);
    forall i | 0 <= i < |q| ensures q[i] in s.cut + [sg] { assert q[i] in q; }
  }

  lemma PopQueue(q: seq<Segment>)
    requires Ascending(q) && q != []
    ensures Ascending(q[1..]) && q[0].tsn !in Queued(q[1..])
    ensures Queued(q) == Queued(q[1..]) + {q[0].tsn}
  {
    assert q == [q[0]] + q[1..];
    forall y | y in q[1..] ensures y.tsn != q[0].tsn {
      var i :| 0 <= i < |q[1..]| && q[1..][i] == y;
      assert q[i + 1] == y;
    }
  }

  lemma TransmitKeeps(s: Sender, n: nat)
    requires SenderOk(s) && n !in s.ackwait
    ensures SenderOk(Transmit(s, n))
  {
    hide Ascending, FlightDistinct, BytesAt, Tiles, Queued, Flight, Collected;
    NothingToCollect(s);
    if s.tqueue != [] {
      var x := s.tqueue[0];
      PopQueue(s.tqueue);
      FlightAdd(s.ackwait, n, x);
      TilesDistinct(s.cut, s.written, s.endwrite);
      BytesInsert(s.cut, Flight(s.ackwait), x);
      assert forall i :: 0 <= i < |s.tqueue[1..]| ==> s.tqueue[1..][i] == s.tqueue[i + 1];
    }
  }

  lemma AckedKeeps(s: Sender, n: int)
    requires SenderOk(s) && (n in s.ackwait ==> !s.ackwait[n].late)
    ensures SenderOk(Acked(s, n))
  {
    hide Ascending, FlightDistinct, BytesAt, Tiles, Queued;
    if n in s.ackwait {
      var x := s.ackwait[n].sg;
      assert x.tsn in Flight(s.ackwait);
      FlightDrop(s.ackwait, n, s.ackwait - {n});
      TilesDistinct(s.cut, s.written, s.endwrite);
      BytesDelete(s.cut, Flight(s.ackwait), x);
      BytesDelete(s.cut, s.twait, x);
    }
  }

  lemma MissedKeeps(s: Sender, n: int)
    requires SenderOk(s)
    ensures SenderOk(Missed(s, n))
  {
    hide Ascending, FlightDistinct, BytesAt, Tiles, Queued, Enqueue;
    if LiveAt(s.ackwait, n) {
      var x := s.ackwait[n].sg;
      assert x.tsn in Flight(s.ackwait);
      FlightDrop(s.ackwait, n, s.ackwait[n := Pending(x, true)]);
      EnqueueKeeps(s.tqueue, x);
      EnqueueSet(s.tqueue, x);
      TilesDistinct(s.cut, s.written, s.endwrite);
      BytesDelete(s.cut, Flight(s.ackwait), x);
      var q := Enqueue(s.tqueue, x);
      assert forall i :: 0 <= i < |q| ==> q[i] in q;
    }
  }

  lemma ExpireKeeps(s: Sender, n: int)
    requires SenderOk(s) && !LiveAt(s.ackwait, n)
    ensures SenderOk(Expire(s, n))
  {
    hide Ascending, BytesAt, Tiles, Queued;
    var w := s.ackwait - {n};
    forall t ensures t in Flight(w) <==> t in Flight(s.ackwait) {
      if t in Flight(s.ackwait) {
        var m :| LiveAt(s.ackwait, m) && s.ackwait[m].sg.tsn == t;
        assert LiveAt(w, m);
      }
    }
    assert Flight(w) == Flight(s.ackwait);
  }

  lemma GiveBackKeeps(s: Sender, n: int)
    requires SenderOk(s)
    ensures SenderOk(GiveBack(s, n))
  {
    hide SenderOk, Enqueue;
    MissedKeeps(s, n);
    ExpireKeeps(Missed(s, n), n);
  }

  // ---------- what the steps achieve ----------

  /** The collection loop drops only segments nobody waits for, and stops at one that is waited for. */
  lemma {:induction false} CollectedLaw(q: seq<Segment>, twait: set<nat>)
    ensures |Collected(q, twait)| <= |q| && Collected(q, twait) == q[|q| - |Collected(q, twait)|..]
    ensures forall i :: 0 <= i < |q| - |Collected(q, twait)| ==> q[i].tsn !in twait
    ensures Collected(q, twait) != [] ==> Collected(q, twait)[0].tsn in twait
  {
    if q != [] && q[0].tsn !in twait {
      CollectedLaw(q[1..], twait);
      var k := |q| - |Collected(q, twait)|;
      assert q[1..][k - 1..] == q[k..];
      assert forall i :: 0 < i < |q| ==> q[i] == q[1..][i - 1];
    }
  }

  /** transmit() sends the segment with the lowest position of all that are queued. */
  lemma TransmitSends(s: Sender, n: nat)
    requires SenderOk(s) && s.tqueue != []
    ensures Transmitted(s) == [s.tqueue[0]] && Transmit(s, n).tqueue == s.tqueue[1..]
    ensures Transmit(s, n).ackwait == s.ackwait[n := Pending(s.tqueue[0], false)]
    ensures forall t :: t in Queued(s.tqueue) ==> s.tqueue[0].tsn <= t
  {
    hide Tiles, BytesAt, FlightDistinct, Flight, Collected;
    NothingToCollect(s);
    forall sg | sg in s.tqueue ensures s.tqueue[0].tsn <= sg.tsn {
      var i :| 0 <= i < |s.tqueue| && s.tqueue[i] == sg;
    }
  }

  /** Detaching packet n leaves no record of it, and queues its segment again if it was live. */
  lemma GiveBackReturns(s: Sender, n: int)
    requires SenderOk(s)
    ensures n !in GiveBack(s, n).ackwait
    ensures LiveAt(s.ackwait, n) ==> s.ackwait[n].sg in GiveBack(s, n).tqueue
    ensures !LiveAt(s.ackwait, n) ==> GiveBack(s, n).tqueue == s.tqueue
  {
    hide SenderOk, Enqueue;
    if LiveAt(s.ackwait, n) { EnqueueHas(s.tqueue, s.ackwait[n].sg); }
  }
}
