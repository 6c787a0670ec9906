/** Handing bytes and messages to the application (readData, readMessage in lib/strm/base.cc). */
module Reading {
  import opened StreamSend
  import opened StreamReceive
  import opened Reassembly

  /** Nothing is queued, kept ahead or counted any more. */
  predicate Emptied(r: Receiver) {
    r.rahead == [] && r.rsegs == [] && r.rmsgsize == [] && r.ravail == 0 && r.rmsgavail == 0 && r.rbufused == 0
  }

  /** The invariant of a receiver, open or closed. */
  ghost predicate ReceiverSafe(r: Receiver, S: seq<Byte>) {
    if r.endread then r.rsn <= |S| && r.readout <= S[..r.rsn] && CloseSeen(r) && Emptied(r)
    else ReceiverOk(r, S)
  }

  lemma {:induction false} VolumeNonNegative(q: seq<RxSegment>)
    requires AllValid(q)
    ensures 0 <= Volume(q)
  {
    if q != [] { VolumeNonNegative(q[..|q| - 1]); }
  }

  /** The first message is at least as long as the first segment: headsize never goes negative. */
  lemma HeadFits(r: Receiver)
    requires AllValid(r.rsegs) && Balanced(r) && Aligned(r) && r.rmsgsize != []
    ensures r.rsegs != [] && r.rsegs[0].Size() <= r.rmsgsize[0]
  {
    assert r.rmsgsize[..1] == [r.rmsgsize[0]];
    assert Sum([r.rmsgsize[0]]) == r.rmsgsize[0];
    assert EndsAt(r.rsegs, Sum(r.rmsgsize[..1]));
    var i :| 0 <= i <= |r.rsegs| && Volume(r.rsegs[..i]) == r.rmsgsize[0];
    assert i > 0;
    VolumeTail(r.rsegs[..i]);
    VolumeNonNegative(r.rsegs[..i][1..]);
  }

  /** The readable queue without its first segment. */
  function Popped(r: Receiver): Receiver
    requires r.rsegs != [] && r.rsegs[0].Valid()
  {
    var x := r.rsegs[0];
    r.(rsegs := r.rsegs[1..], ravail := r.ravail - x.Size(), rbufused := r.rbufused - x.Size(),
       readout := r.readout + x.Bytes())
  }

  lemma PoppedInOrder(r: Receiver, S: seq<Byte>)
    requires InOrder(r, S) && !r.endread && r.rsegs != []
    ensures InOrder(Popped(r), S)
  {
    BytesTail(r.rsegs);
    assert AllValid(r.rsegs[1..]);
    SeqAssoc(r.readout, r.rsegs[0].Bytes(), BytesOf(r.rsegs[1..]));
  }

  lemma {:induction false} EndsAtTail(q: seq<RxSegment>, p: int)
    requires q != [] && EndsAt(q, p) && p > 0
    ensures EndsAt(q[1..], p - q[0].Size())
  {
    var i :| 0 <= i <= |q| && Volume(q[..i]) == p;
    VolumeTail(q[..i]);
    assert q[..i][1..] == q[1..][..i - 1];
  }

  lemma {:induction false} SumPositive(s: seq<int>, j: nat)
    requires forall i :: 0 <= i < |s| ==> s[i] > 0
    requires 0 < j <= |s|
    ensures Sum(s[..j]) > 0
  {
    assert s[..j][..j - 1] == s[..j - 1];
    if j > 1 { SumPositive(s, j - 1); }
  }

  lemma SumHead(s: seq<int>, j: nat, h: int)
    requires 0 < j <= |s|
    ensures Sum(([h] + s[1..])[..j]) == Sum(s[..j]) - s[0] + h
  {
    SumTail(s[..j]);
    var t := [h] + s[1..];
    SumTail(t[..j]);
    assert t[..j][1..] == s[..j][1..];
  }

  /** ReadOne with messages pending, the boundary not yet reached. */
  lemma ReadWithin(r: Receiver)
    requires AllValid(r.rsegs) && Balanced(r) && Aligned(r) && r.rmsgsize != [] && r.rsegs != []
    requires r.rsegs[0].Size() < r.rmsgsize[0]
    ensures Balanced(Popped(r).(rmsgsize := [r.rmsgsize[0] - r.rsegs[0].Size()] + r.rmsgsize[1..]))
    ensures Aligned(Popped(r).(rmsgsize := [r.rmsgsize[0] - r.rsegs[0].Size()] + r.rmsgsize[1..]))
  {
    hide Volume, Sum;
    VolumeTail(r.rsegs);
    NoTotals();
    var s, h := r.rmsgsize, r.rmsgsize[0] - r.rsegs[0].Size();
    var t := [h] + s[1..];
    SumHead(s, |s|, h);
    assert t[..|s|] == t && s[..|s|] == s;
    forall j | 0 <= j <= |t| ensures EndsAt(r.rsegs[1..], Sum(t[..j])) {
      if j == 0 {
        assert r.rsegs[1..][..0] == [] && t[..0] == [];
      } else {
        SumHead(s, j, h);
        SumPositive(s, j);
        assert EndsAt(r.rsegs, Sum(s[..j]));
        EndsAtTail(r.rsegs, Sum(s[..j]));
      }
    }
  }

  lemma NoTotals()
    ensures Volume([]) == 0 && Sum([]) == 0
  {
  }

  /** ReadOne that completes the first message. */
  lemma ReadToBoundary(r: Receiver)
    requires AllValid(r.rsegs) && Balanced(r) && Aligned(r) && r.rmsgsize != [] && r.rsegs != []
    requires r.rsegs[0].Size() == r.rmsgsize[0]
    ensures Balanced(Popped(r).(rmsgsize := r.rmsgsize[1..])) && Aligned(Popped(r).(rmsgsize := r.rmsgsize[1..]))
  {
    VolumeTail(r.rsegs);
    var s := r.rmsgsize;
    SumTail(s);
    forall j | 0 <= j <= |s[1..]| ensures EndsAt(r.rsegs[1..], Sum(s[1..][..j])) {
      SumTail(s[..j + 1]);
      assert s[..j + 1][1..] == s[1..][..j];
      SumPositive(s, j + 1);
      assert EndsAt(r.rsegs, Sum(s[..j + 1]));
      EndsAtTail(r.rsegs, Sum(s[..j + 1]));
    }
  }

  /** ReadOne with no complete message pending. */
  lemma ReadRaw(r: Receiver)
    requires AllValid(r.rsegs) && Balanced(r) && r.rmsgsize == [] && r.rsegs != []
    ensures Balanced(Popped(r).(rmsgavail := r.rmsgavail - r.rsegs[0].Size()))
    ensures Aligned(Popped(r).(rmsgavail := r.rmsgavail - r.rsegs[0].Size()))
  {
    VolumeTail(r.rsegs);
    VolumeNonNegative(r.rsegs[1..]);
    assert Volume(r.rsegs[1..][..0]) == Sum([]);
  }

  /** What one turn of the loop leaves when the segment read does not close the stream. */
  function ReadOpen(r: Receiver): Receiver
    requires r.rsegs != [] && r.rsegs[0].Valid()
  {
    if r.rmsgsize == [] then Popped(r).(rmsgavail := r.rmsgavail - r.rsegs[0].Size())
    else if r.rmsgsize[0] == r.rsegs[0].Size() then Popped(r).(rmsgsize := r.rmsgsize[1..])
    else Popped(r).(rmsgsize := [r.rmsgsize[0] - r.rsegs[0].Size()] + r.rmsgsize[1..])
  }

  lemma PoppedClose(r: Receiver)
    requires r.rsegs != []
    ensures HasClose(r.rsegs[1..]) ==> HasClose(r.rsegs)
  {
    if HasClose(r.rsegs[1..]) {
      var i :| 0 <= i < |r.rsegs[1..]| && r.rsegs[1..][i].flags.close;
      assert r.rsegs[i + 1].flags.close;
    }
  }

  lemma ReadOpenCounters(r: Receiver)
    requires AllValid(r.rsegs) && Balanced(r) && Aligned(r) && r.rsegs != []
    ensures Balanced(ReadOpen(r)) && Aligned(ReadOpen(r))
  {
    hide Balanced, Aligned;
    if r.rmsgsize == [] {
      ReadRaw(r);
    } else {
      HeadFits(r);
      if r.rsegs[0].Size() == r.rmsgsize[0] { ReadToBoundary(r); } else { ReadWithin(r); }
    }
  }

  lemma ReadOpenInOrder(r: Receiver, S: seq<Byte>)
    requires InOrder(r, S) && !r.endread && r.rsegs != []
    ensures InOrder(ReadOpen(r), S)
  {
    hide BytesOf;
    PoppedInOrder(r, S);
  }

  lemma OkParts(r: Receiver, S: seq<Byte>)
    requires ReceiverOk(r, S)
    ensures AllValid(r.rsegs) && InOrder(r, S) && Balanced(r) && Aligned(r) && !r.endread
  {
  }

  lemma ReadOpenKeeps(r: Receiver, S: seq<Byte>)
    requires ReceiverOk(r, S) && r.rsegs != []
    ensures r.rsegs[0].Valid() && ReceiverOk(ReadOpen(r), S)
  {
    hide ReceiverOk, InOrder, Balanced, Aligned, HasClose;
    OkParts(r, S);
    ReadOpenInOrder(r, S);
    ReadOpenCounters(r);
    PoppedClose(r);
    ReadOpenFrame(r, S);
  }

  lemma ReadOpenFrame(r: Receiver, S: seq<Byte>)
    requires ReceiverOk(r, S) && r.rsegs != [] && r.rsegs[0].Valid()
    requires InOrder(ReadOpen(r), S) && Balanced(ReadOpen(r)) && Aligned(ReadOpen(r))
    requires HasClose(ReadOpen(r).rsegs) ==> HasClose(r.rsegs)
    ensures ReceiverOk(ReadOpen(r), S)
  {
    hide InOrder, Balanced, Aligned, HasClose;
    var r' := ReadOpen(r);
    assert forall sg :: Holds(r, sg) ==> Holds(r', sg);
    assert CloseSeen(r) ==> CloseSeen(r');
  }

  /** One turn of the loop of readData. */
  lemma ReadOneKeeps(r: Receiver, S: seq<Byte>)
    requires ReceiverOk(r, S) && r.rsegs != []
    ensures r.rsegs[0].Valid() && ReceiverSafe(ReadOne(r).0, S)
    ensures ReadOne(r).0.rsn == r.rsn && ReadOne(r).0.arrived == r.arrived
    ensures r.readout <= ReadOne(r).0.readout && ReadOne(r).0.readout == ReadOpen(r).readout
  {
    hide ReceiverOk, InOrder, Balanced, Aligned, CloseSeen;
    ReadOpenKeeps(r, S);
    OkParts(ReadOpen(r), S);
    OkParts(r, S);
    ReadOneClosing(r, S);
  }

  lemma ReadOneClosing(r: Receiver, S: seq<Byte>)
    requires ReceiverOk(r, S) && r.rsegs != [] && r.rsegs[0].Valid() && ReceiverOk(ReadOpen(r), S)
    ensures ReadOne(r).0 == ReadOpen(r) || ReadOne(r).0 == Shutdown(ReadOpen(r))
    ensures ReadOne(r).0.endread ==> CloseSeen(ReadOne(r).0) && r.rsn <= |S| && ReadOpen(r).readout <= S[..r.rsn]
  {
    hide InOrder, Balanced, Aligned, Filled, HoldsAll, CloseSeen, HasClose;
    ReadOneEnds(r);
    PrefixSoFar(ReadOpen(r), S);
    if r.rsegs[0].flags.close {
      HeadCloses(r);
      StillSeen(r, Shutdown(ReadOpen(r)));
    }
  }

  lemma HeadCloses(r: Receiver)
    requires r.rsegs != [] && r.rsegs[0].flags.close
    ensures HasClose(r.rsegs)
  {
  }

  lemma PrefixSoFar(r: Receiver, S: seq<Byte>)
    requires InOrder(r, S)
    ensures r.rsn <= |S| && r.readout <= S[..r.rsn]
  {
  }

  lemma StillSeen(r: Receiver, r': Receiver)
    requires CloseSeen(r) && r'.arrived == r.arrived && r'.rsn == r.rsn
    ensures CloseSeen(r')
  {
  }

  /** A turn of the read loop ends the stream exactly when it takes a closing segment and does not stop
      at a message boundary. */
  lemma ReadOneEnds(r: Receiver)
    requires r.rsegs != [] && r.rsegs[0].Valid()
    ensures ReadOne(r).0 == ReadOpen(r) || ReadOne(r).0 == Shutdown(ReadOpen(r))
    ensures !r.endread ==>
      (ReadOne(r).0.endread <==>
       r.rsegs[0].flags.close && !(r.rmsgsize != [] && r.rmsgsize[0] == r.rsegs[0].Size()))
  {
  }

  /** Any read keeps the receiver safe and only ever hands out the next bytes of S. */
  lemma {:induction false} ReadDataKeeps(r: Receiver, max: int, S: seq<Byte>)
    requires ReceiverSafe(r, S)
    ensures ReceiverSafe(ReadData(r, max), S)
    ensures ReadData(r, max).rsn == r.rsn && ReadData(r, max).arrived == r.arrived
    ensures r.readout <= ReadData(r, max).readout
    decreases |r.rsegs|
  {
    hide ReceiverOk, ReadOne, CloseSeen;
    if max <= 0 || r.ravail <= 0 || r.rsegs == [] || !r.rsegs[0].Valid() || r.rsegs[0].Size() > max {
    } else {
      ReadOneKeeps(r, S);
      if ReadOne(r).1 && |ReadOne(r).0.rsegs| < |r.rsegs| {
        ReadDataKeeps(ReadOne(r).0, max - r.rsegs[0].Size(), S);
      }
    }
  }

  /** A segment, arriving at an open or closed receiver. */
  lemma RxDataSafe(r: Receiver, sg: Segment, S: seq<Byte>)
    requires ReceiverSafe(r, S) && CutFrom(S, sg)
    ensures ReceiverSafe(RxData(r, sg), S)
    ensures r.rsn <= RxData(r, sg).rsn && RxData(r, sg).arrived == r.arrived + [sg]
    ensures RxData(r, sg).readout == r.readout
  {
    hide ReceiverOk, Accept;
    if r.endread {
      ClosedArrival(r, sg);
    } else {
      RxDataKeeps(r, sg, S);
      AcceptFrame(r.(arrived := r.arrived + [sg]), sg);
    }
  }

  /** Whatever becomes of a segment, its arrival is on record. */
  lemma ArrivedKept(r: Receiver, sg: Segment)
    ensures RxData(r, sg).arrived == r.arrived + [sg]
  {
    var r1 := r.(arrived := r.arrived + [sg]);
    var x := RxSegment(sg.tsn, sg.data, 0, sg.flags);
    if !r.endread && sg.tsn <= r.rsn && Useful(r.rsn, x) {
      PullFrame(Consume(r1, x.(skip := r.rsn - x.rsn)), sg.flags.close);
    }
  }

  lemma ClosedArrival(r: Receiver, sg: Segment)
    requires CloseSeen(r)
    ensures CloseSeen(r.(arrived := r.arrived + [sg]))
  {
    var y :| y in r.arrived && y.flags.close && y.End() <= r.rsn;
    assert y in r.arrived + [sg];
  }

  lemma {:induction false} PullFrame(r: Receiver, closed: bool)
    ensures Pull(r, closed).0.readout == r.readout && Pull(r, closed).0.endread == r.endread
    ensures Pull(r, closed).0.arrived == r.arrived
    decreases |r.rahead|
  {
    if r.rahead != [] && r.rahead[0].rsn <= r.rsn {
      if Useful(r.rsn, r.rahead[0]) {
        PullFrame(PullOne(r), closed || r.rahead[0].flags.close);
      } else {
        PullFrame(Dropped(r), closed);
      }
    }
  }

  lemma AcceptFrame(r: Receiver, sg: Segment)
    ensures Accept(r, sg).readout == r.readout
    ensures !r.endread && Accept(r, sg).endread ==> Emptied(Accept(r, sg))
  {
    var x := RxSegment(sg.tsn, sg.data, 0, sg.flags);
    if sg.tsn <= r.rsn && Useful(r.rsn, x) {
      PullFrame(Consume(r, x.(skip := r.rsn - x.rsn)), sg.flags.close);
    }
  }

  // ---------- messages ----------

  /** Nothing but empty segments follows the end of the stream. */
  ghost predicate CloseLast(q: seq<RxSegment>) {
    forall i :: 0 <= i < |q| && q[i].flags.close ==> Volume(q[i + 1..]) == 0
  }

  lemma CloseLastTail(q: seq<RxSegment>)
    requires CloseLast(q) && q != []
    ensures CloseLast(q[1..])
  {
    forall i | 0 <= i < |q[1..]| && q[1..][i].flags.close ensures Volume(q[1..][i + 1..]) == 0 {
      assert q[1..][i + 1..] == q[i + 2..];
    }
  }

  /** A closing segment is never read before the boundary of the message it ends. */
  lemma CloseNotEarly(r: Receiver)
    requires AllValid(r.rsegs) && Balanced(r) && CloseLast(r.rsegs) && r.rmsgsize != [] && r.rsegs != []
    requires r.rsegs[0].Size() < r.rmsgsize[0]
    ensures !r.rsegs[0].flags.close
  {
    if r.rsegs[0].flags.close {
      assert r.rsegs[0 + 1..] == r.rsegs[1..];
      VolumeTail(r.rsegs);
      SumTail(r.rmsgsize);
      SumAllNonNegative(r.rmsgsize[1..]);
    }
  }

  lemma {:induction false} SumAllNonNegative(s: seq<int>)
    requires forall j :: 0 <= j < |s| ==> s[j] > 0
    ensures 0 <= Sum(s)
  {
    if s != [] { SumAllNonNegative(s[..|s| - 1]); }
  }

  /** readMessage with room for the message: it never splits a segment, hands out exactly the bytes
      of S up to the next boundary, and removes exactly that boundary. */
  lemma {:induction false} MessageExact(r: Receiver, max: int, S: seq<Byte>)
    requires ReceiverOk(r, S) && CloseLast(r.rsegs) && r.rmsgsize != [] && r.rmsgsize[0] <= max
    ensures Fits(r, max) && ReceiverOk(ReadData(r, max), S)
    ensures ReadData(r, max).rmsgsize == r.rmsgsize[1..]
    ensures |ReadData(r, max).readout| == |r.readout| + r.rmsgsize[0] <= |S|
    ensures ReadData(r, max).readout == S[..|r.readout| + r.rmsgsize[0]]
    decreases |r.rsegs|
  {
    hide ReceiverOk, Balanced, Aligned, InOrder, CloseLast;
    OkParts(r, S);
    HeadFits(r);
    PendingAvail(r);
    ReadOpenKeeps(r, S);
    OkParts(ReadOpen(r), S);
    if r.rsegs[0].Size() < r.rmsgsize[0] {
      CloseNotEarly(r);
      CloseLastTail(r.rsegs);
      assert ReadOne(r) == (ReadOpen(r), true);
      MessageExact(ReadOpen(r), max - r.rsegs[0].Size(), S);
    } else {
      assert ReadOne(r) == (ReadOpen(r), false);
    }
  }

  /** readMessage into a shorter buffer: as much of the message as fits, the rest still pending. */
  lemma {:induction false} MessagePart(r: Receiver, max: int, S: seq<Byte>)
    requires ReceiverOk(r, S) && CloseLast(r.rsegs) && r.rmsgsize != [] && 0 <= max < r.rmsgsize[0] && Fits(r, max)
    ensures ReceiverOk(ReadData(r, max), S) && CloseLast(ReadData(r, max).rsegs)
    ensures ReadData(r, max).rmsgsize == [r.rmsgsize[0] - max] + r.rmsgsize[1..]
    ensures |ReadData(r, max).readout| == |r.readout| + max
    decreases |r.rsegs|
  {
    hide ReceiverOk, Balanced, Aligned, InOrder, CloseLast;
    OkParts(r, S);
    HeadFits(r);
    PendingAvail(r);
    if max > 0 {
      ReadOpenKeeps(r, S);
      CloseNotEarly(r);
      CloseLastTail(r.rsegs);
      assert ReadOne(r) == (ReadOpen(r), true);
      MessagePart(ReadOpen(r), max - r.rsegs[0].Size(), S);
    }
  }

  lemma PendingAvail(r: Receiver)
    requires AllValid(r.rsegs) && Balanced(r) && r.rmsgsize != []
    ensures r.ravail > 0 && r.rmsgsize[0] > 0
  {
    SumTail(r.rmsgsize);
    SumAllNonNegative(r.rmsgsize[1..]);
  }


  // ---------- how much a read returns ----------

  function AtMost(a: int, b: int): int { if a < b then a else b }

  /** With no message boundary ahead, a read takes all the bytes there are, as far as they fit. */
  lemma {:induction false} PlainExact(r: Receiver, max: int, S: seq<Byte>)
    requires ReceiverOk(r, S) && CloseLast(r.rsegs) && r.rmsgsize == [] && 0 <= max && Fits(r, max)
    ensures |ReadData(r, max).readout| == |r.readout| + AtMost(max, r.ravail)
    decreases |r.rsegs|
  {
    hide ReceiverOk, Balanced, Aligned, InOrder, CloseLast;
    OkParts(r, S);
    QueueBytes(r);
    if max > 0 && r.ravail > 0 {
      ReadOpenKeeps(r, S);
      OkParts(ReadOpen(r), S);
      QueueBytes(ReadOpen(r));
      if r.rsegs[0].flags.close {
        NothingAfter(r);
      } else {
        CloseLastTail(r.rsegs);
        assert ReadOne(r) == (ReadOpen(r), true);
        PlainExact(ReadOpen(r), max - r.rsegs[0].Size(), S);
      }
    }
  }

  lemma QueueBytes(r: Receiver)
    requires AllValid(r.rsegs) && Balanced(r)
    ensures r.ravail >= 0 && (r.rsegs == [] ==> r.ravail == 0)
    ensures r.rsegs != [] ==> r.rsegs[0].Size() <= r.ravail
  {
    hide Sum;
    VolumeNonNegative(r.rsegs);
    if r.rsegs != [] {
      VolumeTail(r.rsegs);
      assert AllValid(r.rsegs[1..]);
      VolumeNonNegative(r.rsegs[1..]);
    }
  }

  lemma NothingAfter(r: Receiver)
    requires CloseLast(r.rsegs) && Balanced(r) && r.rsegs != [] && r.rsegs[0].flags.close
    ensures r.ravail == r.rsegs[0].Size()
  {
    hide Volume, Sum;
    VolumeTail(r.rsegs);
    assert r.rsegs[0 + 1..] == r.rsegs[1..];
  }

  /** How many bytes readData returns: up to the next message boundary, or all there are. */
  function ReadAmount(r: Receiver, max: int): int {
    AtMost(max, if r.rmsgsize == [] then r.ravail else r.rmsgsize[0])
  }

  /** Every read returns exactly that much. */
  lemma ReadExact(r: Receiver, max: int, S: seq<Byte>)
    requires ReceiverOk(r, S) && CloseLast(r.rsegs) && 0 <= max && Fits(r, max)
    ensures |ReadData(r, max).readout| == |r.readout| + ReadAmount(r, max)
  {
    hide ReceiverOk, CloseLast, Fits, ReadData;
    if r.rmsgsize == [] {
      PlainExact(r, max, S);
    } else if max < r.rmsgsize[0] {
      MessagePart(r, max, S);
    } else {
      MessageExact(r, max, S);
    }
  }
}
