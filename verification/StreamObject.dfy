/** The stream as lib/strm/base.cc runs it: fields updated in place by loops, proved against the
    step functions of StreamSend and StreamReceive. */
module StreamObject {
  import opened StreamSend
  import opened StreamReceive
  import opened Reassembly
  import opened Reading

  const MIN_RECEIVE_BUFFER := 2 * MTU

  // ---------- writeData ----------

  /** writeData: pieces of at most MTU bytes, the last with the push flag and the caller's flags. */
  function WriteAll(s: Sender, data: seq<Byte>, endflags: Flags): Sender
    decreases |data|
  {
    if |data| <= MTU then WriteSegment(s, data, endflags.(push := true))
    else WriteAll(WriteSegment(s, data[..MTU], NO_FLAGS), data[MTU..], endflags)
  }

  /** The segments cut from one write: full-sized and unflagged except the last. */
  ghost predicate Pieces(news: seq<Segment>, endflags: Flags) {
    && |news| > 0
    && news[|news| - 1].flags == endflags.(push := true) && |news[|news| - 1].data| <= MTU
    && forall i :: 0 <= i < |news| - 1 ==> news[i].flags == NO_FLAGS && |news[i].data| == MTU
  }

  /** One write appends exactly its bytes and keeps the sender in order. */
  lemma {:induction false} WriteAllKeeps(s: Sender, data: seq<Byte>, endflags: Flags)
    requires SenderOk(s) && MayWrite(s, data, endflags)
    ensures SenderOk(WriteAll(s, data, endflags))
    ensures WriteAll(s, data, endflags).written == s.written + data
    ensures WriteAll(s, data, endflags).endwrite == endflags.close
    ensures s.cut <= WriteAll(s, data, endflags).cut
    ensures Pieces(WriteAll(s, data, endflags).cut[|s.cut|..], endflags)
    decreases |data|
  {
    hide SenderOk, Enqueue, Pieces;
    if |data| <= MTU {
      WriteKeeps(s, data, endflags.(push := true));
      assert WriteAll(s, data, endflags).cut[|s.cut|..] == [Segment(s.tasn, data, endflags.(push := true))];
      OnePiece(Segment(s.tasn, data, endflags.(push := true)), endflags);
    } else {
      WriteKeeps(s, data[..MTU], NO_FLAGS);
      var s1 := WriteSegment(s, data[..MTU], NO_FLAGS);
      WriteAllKeeps(s1, data[MTU..], endflags);
      assert data == data[..MTU] + data[MTU..];
      var t := WriteAll(s, data, endflags);
      assert t.cut[|s.cut|] == s1.cut[|s.cut|];
      assert t.cut[|s.cut|..] == [s1.cut[|s.cut|]] + t.cut[|s1.cut|..];
      MorePieces(s1.cut[|s.cut|], t.cut[|s1.cut|..], endflags);
    }
  }

  lemma OnePiece(sg: Segment, endflags: Flags)
    requires sg.flags == endflags.(push := true) && |sg.data| <= MTU
    ensures Pieces([sg], endflags)
  {
  }

  lemma MorePieces(sg: Segment, news: seq<Segment>, endflags: Flags)
    requires Pieces(news, endflags) && sg.flags == NO_FLAGS && |sg.data| == MTU
    ensures Pieces([sg] + news, endflags)
  {
  }

  // ---------- giving everything back ----------

  /** The segments waited for, in order of position. */
  function Waiting(cut: seq<Segment>, at: set<nat>): seq<Segment> {
    if cut == [] then []
    else Waiting(cut[..|cut| - 1], at) + if cut[|cut| - 1].tsn in at then [cut[|cut| - 1]] else []
  }

  ghost predicate Rising(cut: seq<Segment>) {
    forall i, j :: 0 <= i < j < |cut| ==> cut[i].tsn < cut[j].tsn
  }

  lemma TilesRise(cut: seq<Segment>, w: seq<Byte>, closed: bool)
    requires Tiles(cut, w, closed)
    ensures Rising(cut)
  {
    forall i, j | 0 <= i < j < |cut| ensures cut[i].tsn < cut[j].tsn { TileOrder(cut, w, closed, i, j); }
  }

  /** q holds exactly the segments of cut whose positions are in `at`. */
  ghost predicate Selects(q: seq<Segment>, cut: seq<Segment>, at: set<nat>) {
    forall x :: x in q <==> x in cut && x.tsn in at
  }

  /** An ascending queue of cut segments is determined by the positions in it. */
  lemma {:induction false} QueueUnique(q: seq<Segment>, cut: seq<Segment>, at: set<nat>)
    requires Rising(cut) && Ascending(q) && Selects(q, cut, at)
    ensures q == Waiting(cut, at)
  {
    if cut == [] {
      assert forall x :: x !in q;
    } else {
      var k := |cut| - 1;
      assert Rising(cut[..k]);
      if cut[k].tsn in at {
        SelectedLast(q, cut, at);
        QueueUnique(q[..|q| - 1], cut[..k], at);
      } else {
        assert Selects(q, cut[..k], at);
        QueueUnique(q, cut[..k], at);
      }
    }
  }

  lemma SelectedLast(q: seq<Segment>, cut: seq<Segment>, at: set<nat>)
    requires Rising(cut) && Ascending(q) && Selects(q, cut, at) && cut != [] && cut[|cut| - 1].tsn in at
    ensures q != [] && q[|q| - 1] == cut[|cut| - 1]
    ensures Ascending(q[..|q| - 1]) && Selects(q[..|q| - 1], cut[..|cut| - 1], at)
  {
    var c := cut[|cut| - 1];
    assert c in cut;
    var i :| 0 <= i < |q| && q[i] == c;
    var last := q[|q| - 1];
    assert last in q;
    if i < |q| - 1 { BelowOrLast(cut, last); }
    var init := q[..|q| - 1];
    assert q == init + [c];
    forall x ensures x in init <==> x in cut[..|cut| - 1] && x.tsn in at {
      if x in init {
        var j :| 0 <= j < |init| && init[j] == x;
        assert q[j].tsn < q[|q| - 1].tsn;
      } else if x in cut[..|cut| - 1] {
      }
    }
  }

  lemma BelowOrLast(cut: seq<Segment>, x: Segment)
    requires Rising(cut) && x in cut
    ensures x.tsn <= cut[|cut| - 1].tsn
  {
  }

  /** With no packet left in flight the queue is everything waited for, in order. */
  lemma AllQueued(s: Sender)
    requires SenderOk(s) && Flight(s.ackwait) == {}
    ensures s.tqueue == Waiting(s.cut, s.twait)
  {
    hide BytesAt, Tiles, Flight;
    TilesRise(s.cut, s.written, s.endwrite);
    forall x | x in s.tqueue ensures x in s.cut { var i :| 0 <= i < |s.tqueue| && s.tqueue[i] == x; }
    forall x | x in s.cut ensures x in s.tqueue <==> x.tsn in s.twait {
      if x.tsn in s.twait {
        var y :| y in s.tqueue && y.tsn == x.tsn;
        TileUnique(s.cut, s.written, s.endwrite, x, y);
      }
    }
    assert Selects(s.tqueue, s.cut, s.twait);
    QueueUnique(s.tqueue, s.cut, s.twait);
  }

  lemma GiveBackFrame(s: Sender, n: int)
    ensures GiveBack(s, n).twait == s.twait && GiveBack(s, n).cut == s.cut && GiveBack(s, n).written == s.written
    ensures GiveBack(s, n).ackwait == s.ackwait - {n}
    ensures GiveBack(s, n).tasn == s.tasn && GiveBack(s, n).endwrite == s.endwrite && GiveBack(s, n).twaitsize == s.twaitsize
  {
  }

  // ---------- windows ----------

  function Pow2(i: nat): (p: nat)
    ensures p >= 1
  {
    if i == 0 then 1 else 2 * Pow2(i - 1)
  }

  /** The window byte names the largest 2^w - 1 that does not exceed the room. */
  ghost predicate Encodes(w: nat, room: int) {
    w <= 29 && Pow2(w) - 1 <= room < Pow2(w + 1) - 1
  }

  /** (1 << (win & 0x1f)) - 1 */
  function DecodedWindow(win: nat): int {
    Pow2(win % 32) - 1
  }

  /** The peer decodes at least half of the room and never more than all of it. */
  lemma WindowRoundTrip(w: nat, room: int)
    requires Encodes(w, room)
    ensures DecodedWindow(w) <= room <= 2 * DecodedWindow(w)
  {
    hide Pow2;
    Pow2Next(w);
  }

  /** Only the low five bits of the window byte count. */
  lemma ControlBits(w: nat, c: nat)
    ensures DecodedWindow(w + 32 * c) == DecodedWindow(w)
    ensures w < 32 ==> DecodedWindow(w) == Pow2(w) - 1
  {
    hide Pow2;
  }

  lemma Pow2Next(i: nat)
    ensures Pow2(i + 1) == 2 * Pow2(i)
  {
  }

  lemma {:induction false} Pow2Grows(i: nat, j: nat)
    requires i <= j
    ensures Pow2(i) <= Pow2(j)
  {
    if i < j { Pow2Grows(i, j - 1); }
  }

  lemma Pow2Thirty()
    ensures Pow2(30) == 0x4000_0000
  {
    assert Pow2(10) == 1024;
    assert Pow2(20) == 1024 * Pow2(10);
    assert Pow2(30) == 1024 * Pow2(20);
  }

  // ---------- loops over the queues ----------

  lemma {:induction false} EnqueueFrom(q: seq<Segment>, i: nat, sg: Segment)
    requires i <= |q| && forall k :: i <= k < |q| ==> q[k].tsn > sg.tsn
    ensures Enqueue(q, sg) == Enqueue(q[..i], sg) + q[i..]
  {
    if i == |q| {
      assert q[..i] == q && q[i..] == [];
    } else {
      var init := q[..|q| - 1];
      EnqueueFrom(init, i, sg);
      assert init[..i] == q[..i] && init[i..] + [q[|q| - 1]] == q[i..];
    }
  }

  lemma EnqueueAt(q: seq<Segment>, i: nat, sg: Segment)
    requires i <= |q| && (i == 0 || q[i - 1].tsn <= sg.tsn) && forall k :: i <= k < |q| ==> q[k].tsn > sg.tsn
    ensures Enqueue(q, sg) == q[..i] + [sg] + q[i..]
  {
    EnqueueFrom(q, i, sg);
  }

  lemma {:induction false} LowerBoundIs(q: seq<RxSegment>, v: nat, k: nat)
    requires k <= |q| && (forall i :: 0 <= i < k ==> q[i].rsn < v) && (k < |q| ==> v <= q[k].rsn)
    ensures LowerBound(q, v) == k
  {
    if k > 0 { LowerBoundIs(q[1..], v, k - 1); }
  }

  class BaseStream {
    // transmit
    var tasn: nat
    var endwrite: bool
    var twait: set<nat>
    var twaitsize: int
    var tflt: int
    var twin: int
    var tqueue: seq<Segment>
    var ackwait: map<nat, Pending>   // this stream's part of the flow's table
    ghost var written: seq<Byte>
    ghost var cut: seq<Segment>

    // receive
    var rsn: nat
    var ravail: int
    var rmsgavail: int
    var rbufused: int
    var rahead: seq<RxSegment>
    var rsegs: seq<RxSegment>
    var rmsgsize: seq<int>
    var endread: bool
    var rwinbyte: nat
    var rcvbuf: int
    ghost var readout: seq<Byte>
    ghost var arrived: seq<Segment>

    ghost function Snd(): Sender reads this {
      Sender(tasn, endwrite, twait, twaitsize, tflt, tqueue, ackwait, written, cut)
    }

    ghost function Rcv(): Receiver reads this {
      Receiver(rsn, ravail, rmsgavail, rbufused, rahead, rsegs, rmsgsize, endread, readout, arrived)
    }

    /** Buffer sizes the window arithmetic can handle. */
    predicate BufferOk() reads this {
      0 < rcvbuf < 0x3FFF_FFFF
    }

    /** Room the receiver can offer; never stuck when only out-of-order data is buffered. */
    function Room(): (room: int)
      reads this
      ensures room >= 0 && room >= rcvbuf - rbufused
      ensures ravail == 0 && rbufused > 0 ==> room >= MIN_RECEIVE_BUFFER
      ensures room > 0 && room > rcvbuf - rbufused ==> ravail == 0 && rbufused > 0 && room == MIN_RECEIVE_BUFFER
    {
      var room := if rcvbuf - rbufused > 0 then rcvbuf - rbufused else 0;
      if ravail == 0 && rbufused > 0 && room < MIN_RECEIVE_BUFFER then MIN_RECEIVE_BUFFER else room
    }

    constructor (buffer: int)
      requires 0 < buffer < 0x3FFF_FFFF
      ensures Snd() == InitSender && Rcv() == InitReceiver && BufferOk()
      ensures Encodes(rwinbyte, Room()) && Room() == buffer
    {
      tasn, endwrite, twait, twaitsize, tflt, tqueue, ackwait := 0, false, {}, 0, 0, [], map[];
      rsn, ravail, rmsgavail, rbufused, rahead, rsegs, rmsgsize, endread := 0, 0, 0, 0, [], [], [], false;
      twin, rwinbyte, rcvbuf := 0, 0, buffer;
      written, cut, readout, arrived := [], [], [], [];
      new;
      CalcReceiveWindow();
    }

    // ---------- transmit side ----------

    method TxEnqueue(sg: Segment)
      modifies this`tqueue
      ensures tqueue == Enqueue(old(tqueue), sg)
    {
      var i := |tqueue|;
      while i > 0 && tqueue[i - 1].tsn > sg.tsn
        invariant 0 <= i <= |tqueue|
        invariant forall k :: i <= k < |tqueue| ==> tqueue[k].tsn > sg.tsn
      {
        i := i - 1;
      }
      EnqueueAt(tqueue, i, sg);
      tqueue := tqueue[..i] + [sg] + tqueue[i..];
    }

    method WriteData(data: seq<Byte>, endflags: Flags) returns (size: nat)
      requires !endwrite
      modifies this`tasn, this`endwrite, this`twait, this`twaitsize, this`tqueue, this`written, this`cut
      ensures Snd() == WriteAll(old(Snd()), data, endflags) && size == |data|
    {
      hide Enqueue;
      var rest := data;
      size := 0;
      while |rest| > MTU
        invariant WriteAll(Snd(), rest, endflags) == WriteAll(old(Snd()), data, endflags)
        invariant !endwrite && size + |rest| == |data|
      {
        WritePiece(rest[..MTU], NO_FLAGS);
        rest := rest[MTU..];
        size := size + MTU;
      }
      WritePiece(rest, endflags.(push := true));
      size := size + |rest|;
      if endflags.close { endwrite := true; }
    }

    /** The body of the loop of writeData, without the end of the stream. */
    method WritePiece(data: seq<Byte>, flags: Flags)
      modifies this`tasn, this`twait, this`twaitsize, this`tqueue, this`written, this`cut
      ensures Snd() == WriteSegment(old(Snd()), data, flags).(endwrite := endwrite)
    {
      hide Enqueue;
      var sg := Segment(tasn, data, flags);
      tasn := tasn + |data|;
      written := written + data;
      cut := cut + [sg];
      twait := twait + {sg.tsn};
      twaitsize := twaitsize + |data|;
      TxEnqueue(sg);
    }

    /** transmit: collect acknowledged heads, then send one segment as packet n. */
    method TransmitNext(n: nat) returns (sent: seq<Segment>)
      requires tqueue != []
      modifies this`tqueue, this`tflt, this`ackwait
      ensures Snd() == Transmit(old(Snd()), n) && sent == Transmitted(old(Snd()))
    {
      while tqueue != [] && tqueue[0].tsn !in twait
        invariant Collected(tqueue, twait) == Collected(old(tqueue), twait)
        invariant tflt == old(tflt) && ackwait == old(ackwait)
        decreases |tqueue|
      {
        tqueue := tqueue[1..];
      }
      ghost var q := Collected(old(tqueue), twait);
      assert q == tqueue && q[..0] == [];
      if tqueue == [] { return []; }
      var sg := tqueue[0];
      sent := tqueue[..1];
      tflt := tflt + |sg.data|;
      tqueue := tqueue[1..];
      ackwait := ackwait[n := Pending(sg, false)];
    }

    method OnAcked(n: nat)
      modifies this`twait, this`twaitsize, this`tflt, this`ackwait
      ensures Snd() == Acked(old(Snd()), n)
    {
      if n in ackwait {
        var sg := ackwait[n].sg;
        ackwait := ackwait - {n};
        tflt := tflt - |sg.data|;
        if sg.tsn in twait {
          twait := twait - {sg.tsn};
          twaitsize := twaitsize - |sg.data|;
        }
      }
    }

    method OnMissed(n: nat)
      modifies this`tflt, this`ackwait, this`tqueue
      ensures Snd() == Missed(old(Snd()), n)
    {
      hide Enqueue;
      if n in ackwait && !ackwait[n].late {
        var sg := ackwait[n].sg;
        ackwait := ackwait[n := Pending(sg, true)];
        tflt := tflt - |sg.data|;
        TxEnqueue(sg);
      }
    }

    method OnExpire(n: nat)
      modifies this`ackwait
      ensures Snd() == Expire(old(Snd()), n)
    {
      ackwait := ackwait - {n};
    }

    /** StreamTxAttachment::clear: the table is walked in no particular order, and the queue always
        ends up holding exactly the segments waited for, in order. */
    method Clear()
      requires SenderOk(Snd())
      modifies this`tflt, this`ackwait, this`tqueue
      ensures SenderOk(Snd()) && ackwait == map[] && tqueue == Waiting(cut, twait)
    {
      hide SenderOk, Missed, Waiting;
      var keys := ackwait.Keys;
      while keys != {}
        invariant keys == ackwait.Keys && SenderOk(Snd())
        decreases |keys|
      {
        var n :| n in keys;
        GiveBackKeeps(Snd(), n);
        GiveBackFrame(Snd(), n);
        OnMissed(n);
        OnExpire(n);
        keys := keys - {n};
      }
      assert Flight(ackwait) == {};
      AllQueued(Snd());
    }

    /** StreamFlow::detachAll: the table is emptied first and its packets are given back from a copy;
        the queue ends up the same. */
    method DetachAll()
      requires SenderOk(Snd())
      modifies this`tflt, this`ackwait, this`tqueue
      ensures SenderOk(Snd()) && ackwait == map[] && tqueue == Waiting(cut, twait)
    {
      hide SenderOk, Waiting, Enqueue;
      var bak := ackwait;
      assert Snd().(ackwait := bak) == Snd();
      ackwait := map[];
      while bak.Keys != {}
        invariant ackwait == map[] && SenderOk(Snd().(ackwait := bak))
        decreases |bak.Keys|
      {
        var n :| n in bak.Keys;
        ghost var s := Snd().(ackwait := bak);
        GiveBackKeeps(s, n);
        var p := bak[n];
        if !p.late {
          tflt := tflt - |p.sg.data|;
          TxEnqueue(p.sg);
        }
        bak := bak - {n};
        assert Snd().(ackwait := bak) == GiveBack(s, n);
      }
      assert bak == map[];
      assert Snd().(ackwait := bak) == Snd() && Flight(ackwait) == {};
      AllQueued(Snd());
    }

    // ---------- receive side ----------

    method CalcReceiveWindow()
      requires BufferOk() && rbufused >= 0
      modifies this`rwinbyte
      ensures Encodes(rwinbyte, Room())
    {
      var rwin := if rcvbuf - rbufused > 0 then rcvbuf - rbufused else 0;
      if ravail == 0 && rbufused > 0 && rwin < MIN_RECEIVE_BUFFER { rwin := MIN_RECEIVE_BUFFER; }
      var i, twice := 0, 2;   // twice is 2 << i
      Pow2Thirty();
      while twice - 1 <= rwin
        invariant i <= 29 && twice == Pow2(i + 1) && Pow2(i) - 1 <= rwin
        decreases rwin + 1 - twice
      {
        i := i + 1;
        twice := 2 * twice;
      }
      rwinbyte := i;
    }

    method CalcTransmitWindow(win: nat)
      modifies this`twin
      ensures twin == DecodedWindow(win)
      ensures forall room :: Encodes(win, room) ==> twin <= room <= 2 * twin
    {
      twin := DecodedWindow(win);
      forall room | Encodes(win, room) ensures twin <= room <= 2 * twin { WindowRoundTrip(win, room); }
    }

    /** Append a merged segment to the readable queue. */
    method Take(x: RxSegment)
      requires x.Valid()
      modifies this`rsegs, this`rsn, this`ravail, this`rmsgavail, this`rbufused, this`rmsgsize
      ensures Rcv() == Consume(old(Rcv()), x)
    {
      rsegs := rsegs + [x];
      rsn := rsn + x.Size();
      ravail := ravail + x.Size();
      rmsgavail := rmsgavail + x.Size();
      rbufused := rbufused + x.Size();
      if (x.flags.message || x.flags.close) && rmsgavail > 0 {
        rmsgsize := rmsgsize + [rmsgavail];
        rmsgavail := 0;
      }
    }

    /** The loop that pulls contiguous segments out of the reorder list. */
    method PullAhead(seen: bool) returns (closed: bool)
      modifies this`rahead, this`rsegs, this`rsn, this`ravail, this`rmsgavail, this`rbufused, this`rmsgsize
      ensures (Rcv(), closed) == Pull(old(Rcv()), seen)
    {
      hide Consume;
      closed := seen;
      while rahead != [] && rahead[0].rsn <= rsn
        invariant Pull(Rcv(), closed) == Pull(old(Rcv()), seen)
        decreases |rahead|
      {
        var x := rahead[0];
        rbufused := rbufused - x.Size();
        rahead := rahead[1..];
        if x.rsn + |x.body| > rsn || (x.rsn + |x.body| == rsn && HasFlags(x.flags)) {
          Take(x.(skip := rsn - x.rsn));
          closed := closed || x.flags.close;
        }
      }
    }

    method ShutdownRead()
      modifies this`ravail, this`rmsgavail, this`rbufused, this`rahead, this`rsegs, this`rmsgsize, this`endread
      ensures Rcv() == Shutdown(old(Rcv())) && endread
      ensures !old(endread) ==> rbufused == 0 && ravail == 0
    {
      if !endread {
        ravail, rmsgavail, rbufused := 0, 0, 0;
        rahead, rsegs, rmsgsize := [], [], [];
        endread := true;
      }
    }

    /** The binary search of rxData. */
    method FindPlace(v: nat) returns (lo: nat)
      requires Sorted(rahead)
      ensures lo == LowerBound(rahead, v)
    {
      lo := 0;
      var hi := |rahead|;
      while lo < hi
        invariant 0 <= lo <= hi <= |rahead|
        invariant forall i :: 0 <= i < lo ==> rahead[i].rsn < v
        invariant forall i :: hi <= i < |rahead| ==> v <= rahead[i].rsn
      {
        var mid := (hi + lo) / 2;
        if rahead[mid].rsn < v { lo := mid + 1; } else { hi := mid; }
      }
      LowerBoundIs(rahead, v, lo);
    }

    /** Stash a segment that is out of order. */
    method KeepAhead(x: RxSegment)
      requires Sorted(rahead)
      modifies this`rahead, this`rbufused
      ensures Rcv() == Stash(old(Rcv()), x)
    {
      var hi := |rahead|;
      if hi > 0 && rahead[hi - 1].rsn < x.rsn {
        LowerBoundIs(rahead, x.rsn, hi);
        assert rahead[..hi] + [x] + rahead[hi..] == rahead + [x];
        rahead := rahead + [x];
        rbufused := rbufused + x.Size();
        return;
      }
      var lo := FindPlace(x.rsn);
      if lo < |rahead| && rahead[lo].rsn == x.rsn && x.Size() <= rahead[lo].Size() && x.flags == rahead[lo].flags {
        return;
      }
      rbufused := rbufused + x.Size();
      rahead := rahead[..lo] + [x] + rahead[lo..];
    }

    /** rxData, for a stream the peer has cut from S. */
    method ReceiveData(sg: Segment, ghost S: seq<Byte>)
      requires ReceiverSafe(Rcv(), S) && CutFrom(S, sg) && BufferOk()
      modifies this`rahead, this`rsegs, this`rsn, this`ravail, this`rmsgavail, this`rbufused, this`rmsgsize, this`endread,
        this`arrived, this`rwinbyte
      ensures Rcv() == RxData(old(Rcv()), sg)
      ensures ReceiverSafe(Rcv(), S)
      ensures !old(endread) ==> Encodes(rwinbyte, Room())
    {
      hide ReceiverSafe, Accept, Encodes, Pow2;
      ghost var start := Rcv();
      RxDataSafe(start, sg, S);
      arrived := arrived + [sg];
      if endread {
        SafeEmptied(start, S);
        assert rahead == [] && rsegs == [];   // the assertions of the source
        return;
      }
      SafeSorted(start, S);
      AcceptData(sg);
      assert Rcv() == RxData(start, sg);
      NonNegative(Rcv(), S);
      CalcReceiveWindow();
    }

    /** rxData on a stream open for reading, up to the window update. */
    method AcceptData(sg: Segment)
      requires Sorted(rahead)
      modifies this`rahead, this`rsegs, this`rsn, this`ravail, this`rmsgavail, this`rbufused, this`rmsgsize, this`endread
      ensures Rcv() == Accept(old(Rcv()), sg)
    {
      hide Consume, Pull, Stash, Shutdown, Sorted;
      var x := RxSegment(sg.tsn, sg.data, 0, sg.flags);
      if sg.tsn > rsn {
        KeepAhead(x);
      } else if sg.End() > rsn || (sg.End() == rsn && HasFlags(sg.flags)) {
        Take(x.(skip := rsn - x.rsn));
        var closed := PullAhead(sg.flags.close);
        if closed && ravail == 0 { ShutdownRead(); }
      }
    }

    /** readData: the assertions of the source hold, and the bytes returned are the next ones. */
    method Read(max: int, ghost S: seq<Byte>) returns (data: seq<Byte>)
      requires ReceiverSafe(Rcv(), S) && Fits(Rcv(), max) && BufferOk()
      modifies this`rahead, this`rsegs, this`rsn, this`ravail, this`rmsgavail, this`rbufused, this`rmsgsize, this`endread,
        this`readout, this`rwinbyte
      ensures Rcv() == ReadData(old(Rcv()), max)
      ensures readout == old(readout) + data && ReceiverSafe(Rcv(), S)
      ensures !old(endread) && CloseLast(old(rsegs)) && 0 <= max ==> |data| == ReadAmount(old(Rcv()), max)
      ensures Encodes(rwinbyte, Room())
    {
      hide ReceiverSafe, ReceiverOk, Encodes, Pow2, Shutdown, ReadOne, CloseLast, ReadAmount;
      ReadDataKeeps(Rcv(), max, S);
      SafeAmount(Rcv(), max, S);
      data := [];
      var left, more := max, true;
      while more && left > 0 && ravail > 0
        invariant (if more then ReadData(Rcv(), left) else Rcv()) == ReadData(old(Rcv()), max)
        invariant more ==> Fits(Rcv(), left)
        invariant ReceiverSafe(Rcv(), S) && readout == old(readout) + data
        decreases |rsegs|, more
      {
        ghost var r := Rcv();
        OpenHead(r, S);
        ReadOneKeeps(r, S);
        assert left >= rsegs[0].Size();   // the assertion of the source
        left := left - rsegs[0].Size();
        var piece;
        piece, more := ReadSegment(S);
        data := data + piece;
        ShorterQueue(r);
      }
      NonNegative(Rcv(), S);
      CalcReceiveWindow();
    }

    /** readMessage: exactly one message leaves the queue; what does not fit the buffer is dropped. */
    method ReadMessage(max: int, ghost S: seq<Byte>) returns (ok: bool, data: seq<Byte>)
      requires ReceiverSafe(Rcv(), S) && BufferOk()
      requires rmsgsize != [] ==> CloseLast(rsegs) && 0 < max && Fits(Rcv(), max) && rmsgsize[0] <= 0x4000_0000
      modifies this`rahead, this`rsegs, this`rsn, this`ravail, this`rmsgavail, this`rbufused, this`rmsgsize, this`endread,
        this`readout, this`rwinbyte
      ensures ok == (old(rmsgsize) != [])
      ensures !ok ==> Rcv() == old(Rcv())
      ensures ok ==> ReceiverOk(Rcv(), S) && rmsgsize == old(rmsgsize)[1..]
      ensures ok ==> |old(readout)| + old(rmsgsize)[0] <= |S| && readout == S[..|old(readout)| + old(rmsgsize)[0]]
      ensures ok ==> old(readout) + data <= readout && |data| == if max < old(rmsgsize)[0] then max else old(rmsgsize)[0]
    {
      hide ReceiverOk, Encodes, Pow2, Fits, CloseLast, ReadData, CloseSeen;
      if rmsgsize == [] { return false, []; }
      ok := true;
      ghost var r := Rcv();
      var count := |rmsgsize|;
      if max < rmsgsize[0] {
        MessagePart(r, max, S);
        OkParts(ReadData(r, max), S);
      } else {
        MessageExact(r, max, S);
        OkParts(ReadData(r, max), S);
      }
      data := Read(max, S);
      if |rmsgsize| == count {
        MessageExact(Rcv(), 0x4000_0000, S);
        OkParts(ReadData(Rcv(), 0x4000_0000), S);
        var _ := Read(0x4000_0000, S);
      }
    }

    /** One turn of the loop of readData. */
    method ReadSegment(ghost S: seq<Byte>) returns (data: seq<Byte>, more: bool)
      requires ReceiverSafe(Rcv(), S) && !endread && rsegs != [] && rsegs[0].Valid()
      modifies this`rahead, this`rsegs, this`rsn, this`ravail, this`rmsgavail, this`rbufused, this`rmsgsize, this`endread,
        this`readout
      ensures (Rcv(), more) == ReadOne(old(Rcv())) && readout == old(readout) + data
    {
      hide ReceiverSafe, Shutdown;
      SegmentFits(Rcv(), S);
      var x := rsegs[0];
      rsegs := rsegs[1..];
      data := x.Bytes();
      readout := readout + data;
      ravail := ravail - x.Size();
      rbufused := rbufused - x.Size();
      assert ravail >= 0;   // the assertions of the source
      more := true;
      if rmsgsize != [] {
        var head := rmsgsize[0] - x.Size();
        assert head >= 0;
        if head == 0 {
          rmsgsize := rmsgsize[1..];
          more := false;
          return;
        }
        rmsgsize := [head] + rmsgsize[1..];
      } else {
        rmsgavail := rmsgavail - x.Size();
        assert rmsgavail >= 0;
      }
      if x.flags.close { ShutdownRead(); }
    }
  }

  // ---------- facts the methods need ----------

  lemma SafeSorted(r: Receiver, S: seq<Byte>)
    requires ReceiverSafe(r, S) && !r.endread
    ensures Sorted(r.rahead)
  {
  }

  lemma AheadVolume(r: Receiver, S: seq<Byte>)
    requires ReceiverOk(r, S)
    ensures 0 <= r.ravail <= r.rbufused
  {
    hide Volume, Sum, BytesOf, Aligned, Filled, Holds;
    VolumeNonNegative(r.rsegs);
    forall i | 0 <= i < |r.rahead| ensures r.rahead[i].Valid() { assert r.rahead[i].skip == 0; }
    VolumeNonNegative(r.rahead);
  }

  lemma SafeEmptied(r: Receiver, S: seq<Byte>)
    requires ReceiverSafe(r, S) && r.endread
    ensures Emptied(r)
  {
  }

  lemma SafeAmount(r: Receiver, max: int, S: seq<Byte>)
    requires ReceiverSafe(r, S) && Fits(r, max)
    ensures !r.endread && CloseLast(r.rsegs) && 0 <= max ==> |ReadData(r, max).readout| == |r.readout| + ReadAmount(r, max)
  {
    hide ReceiverOk, CloseLast, Fits, ReadData, CloseSeen;
    if !r.endread && CloseLast(r.rsegs) && 0 <= max { ReadExact(r, max, S); }
  }

  lemma NonNegative(r: Receiver, S: seq<Byte>)
    requires ReceiverSafe(r, S)
    ensures r.rbufused >= 0
  {
    hide ReceiverOk, CloseSeen;
    if !r.endread { AheadVolume(r, S); }
  }

  /** Bytes available mean an open stream with a segment at the head of its queue. */
  lemma OpenHead(r: Receiver, S: seq<Byte>)
    requires ReceiverSafe(r, S) && r.ravail > 0
    ensures !r.endread && ReceiverOk(r, S) && r.rsegs != [] && r.rsegs[0].Valid()
  {
    hide Sum, BytesOf, Aligned, Filled, Holds;
    if r.rsegs == [] { NoTotals(); }
  }

  lemma SegmentFits(r: Receiver, S: seq<Byte>)
    requires ReceiverSafe(r, S) && !r.endread && r.rsegs != [] && r.rsegs[0].Valid()
    ensures r.ravail >= r.rsegs[0].Size()
    ensures r.rmsgsize != [] ==> r.rmsgsize[0] >= r.rsegs[0].Size()
    ensures r.rmsgsize == [] ==> r.rmsgavail >= r.rsegs[0].Size()
  {
    hide Sum, BytesOf, Filled, Holds, Volume, CloseSeen, InOrder, Aligned;
    VolumeTail(r.rsegs);
    OkParts(r, S);
    assert AllValid(r.rsegs[1..]);
    VolumeNonNegative(r.rsegs[1..]);
    NoTotals();
    if r.rmsgsize != [] { HeadFits(r); }
  }

  lemma ShorterQueue(r: Receiver)
    requires r.rsegs != [] && r.rsegs[0].Valid()
    ensures |ReadOne(r).0.rsegs| < |r.rsegs|
  {
  }
}
