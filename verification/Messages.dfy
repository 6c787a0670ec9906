/** The message boundaries a reader sees are the ones the sender marked (rmsgsize and rmsgavail in
    lib/strm/base.cc). */
module Messages {
  import opened StreamSend
  import opened StreamReceive
  import opened Reassembly
  import opened Reading

  predicate Ends(f: Flags) { f.message || f.close }

  predicate Overlap(x: Segment, y: Segment) {
    x.tsn == y.tsn || (x.tsn < y.End() && y.tsn < x.End())
  }

  /** Segments as writeData cuts them: disjoint pieces of S, of which only a closing one is empty,
      and a closing one is the last. */
  ghost predicate WellCut(cut: seq<Segment>, S: seq<Byte>) {
    && (forall sg :: sg in cut ==>
          && CutFrom(S, sg)
          && (sg.data == [] ==> sg.flags.close)
          && (sg.flags.close ==> sg.End() == |S|))
    && (forall x, y :: x in cut && y in cut && Overlap(x, y) ==> x == y)
  }

  lemma TilesWellCut(cut: seq<Segment>, S: seq<Byte>, closed: bool)
    requires Tiles(cut, S, closed)
    ensures WellCut(cut, S)
  {
    forall x, y | x in cut && y in cut && Overlap(x, y) ensures x == y {
      var i :| 0 <= i < |cut| && cut[i] == x;
      var j :| 0 <= j < |cut| && cut[j] == y;
      if i < j { TileOrder(cut, S, closed, i, j); }
      if j < i { TileOrder(cut, S, closed, j, i); }
    }
    forall sg | sg in cut ensures CutFrom(S, sg) && (sg.data == [] ==> sg.flags.close) && (sg.flags.close ==> sg.End() == |S|) {
      var i :| 0 <= i < |cut| && cut[i] == sg;
    }
  }

  // ---------- boundaries ----------

  /** A message that has not been read yet ends at position p of the stream. */
  ghost predicate Boundary(r: Receiver, p: int) {
    exists j :: 0 < j <= |r.rmsgsize| && |r.readout| + Sum(r.rmsgsize[..j]) == p
  }

  /** The sender marked position p as the end of a message or of the stream. */
  ghost predicate MarkedAt(arrived: seq<Segment>, p: int) {
    exists sg :: sg in arrived && Ends(sg.flags) && sg.End() == p
  }

  ghost predicate MarksSound(r: Receiver) {
    forall p :: Boundary(r, p) ==> MarkedAt(r.arrived, p)
  }

  ghost predicate MarksFull(r: Receiver) {
    forall sg :: sg in r.arrived && Ends(sg.flags) && sg.data != [] && |r.readout| < sg.End() <= r.rsn
      ==> Boundary(r, sg.End())
  }

  ghost predicate Stashes(q: seq<RxSegment>, c: Segment) {
    exists i :: 0 <= i < |q| && Origin(q[i]) == c
  }

  /** An empty segment has ended the message in progress, or waits in the reorder list. */
  ghost predicate Seen(r: Receiver, c: Segment) {
    (c.End() <= r.rsn && r.rmsgavail == 0) || Stashes(r.rahead, c)
  }

  ghost predicate EmptySeen(r: Receiver) {
    forall c :: c in r.arrived && c.data == [] ==> Seen(r, c)
  }

  ghost predicate Marks(r: Receiver) {
    MarksSound(r) && MarksFull(r) && EmptySeen(r) && CloseLast(r.rsegs)
  }

  /** The invariant of a receiver, open or closed, with its boundaries. */
  ghost predicate Faithful(r: Receiver, S: seq<Byte>) {
    ReceiverSafe(r, S) && (!r.endread ==> Marks(r))
  }

  // ---------- consuming a segment ----------

  /** The last boundary and the bytes after it reach exactly to rsn. */
  lemma Reach(r: Receiver, S: seq<Byte>)
    requires InOrder(r, S) && Balanced(r) && !r.endread
    ensures |r.readout| + Sum(r.rmsgsize) + r.rmsgavail == r.rsn
  {
    BytesVolume(r.rsegs);
    assert |r.readout + BytesOf(r.rsegs)| == r.rsn;
  }

  predicate EndsMessage(r: Receiver, x: RxSegment) {
    Ends(x.flags) && r.rmsgavail + x.Size() > 0
  }

  lemma ConsumeBoundary(r: Receiver, x: RxSegment, S: seq<Byte>, p: int)
    requires InOrder(r, S) && Balanced(r) && !r.endread && x.Valid()
    ensures Boundary(Consume(r, x), p) <==> Boundary(r, p) || (EndsMessage(r, x) && p == r.rsn + x.Size())
  {
    hide InOrder, Balanced, Sum;
    Reach(r, S);
    var r' := Consume(r, x);
    var n := |r.rmsgsize|;
    if EndsMessage(r, x) {
      SumAppend(r.rmsgsize, r.rmsgavail + x.Size());
      assert r'.rmsgsize[..n + 1] == r'.rmsgsize;
      assert forall j :: 0 <= j <= n ==> r'.rmsgsize[..j] == r.rmsgsize[..j];
    }
  }

  /** The close of a stream whose cut is known lies at its very end. */
  lemma CloseAtEnd(r: Receiver, cut: seq<Segment>, S: seq<Byte>)
    requires WellCut(cut, S) && InOrder(r, S) && CloseSeen(r) && forall y :: y in r.arrived ==> y in cut
    ensures r.rsn == |S|
  {
  }

  /** x, taken from the network or the reorder list, starts at rsn after merging and is useful. */
  ghost predicate Due(r: Receiver, x: RxSegment) {
    x.Valid() && x.rsn + x.skip == r.rsn && Origin(x) in r.arrived && Useful(r.rsn, x)
  }

  ghost predicate Within(r: Receiver, cut: seq<Segment>, S: seq<Byte>) {
    WellCut(cut, S) && Coherent(r, S) && forall y :: y in r.arrived ==> y in cut
  }

  lemma ConsumeSound(r: Receiver, x: RxSegment, S: seq<Byte>)
    requires Coherent(r, S) && MarksSound(r) && Due(r, x)
    ensures MarksSound(Consume(r, x))
  {
    hide Boundary, InOrder, Balanced, Aligned, Consume, Filled, CloseSeen;
    ConsumeFrame(r, x);
    forall p | Boundary(Consume(r, x), p) ensures MarkedAt(Consume(r, x).arrived, p) {
      ConsumeBoundary(r, x, S, p);
      if !Boundary(r, p) { assert Ends(Origin(x).flags) && Origin(x).End() == p; }
    }
  }

  lemma ConsumeFrame(r: Receiver, x: RxSegment)
    requires x.Valid()
    ensures Consume(r, x).arrived == r.arrived && Consume(r, x).readout == r.readout
    ensures Consume(r, x).rsn == r.rsn + x.Size() && Consume(r, x).rahead == r.rahead
    ensures Consume(r, x).rsegs == r.rsegs + [x]
    ensures r.rmsgavail + x.Size() == 0 || (Ends(x.flags) && r.rmsgavail + x.Size() >= 0) ==> Consume(r, x).rmsgavail == 0
  {
  }

  lemma ConsumeFull(r: Receiver, x: RxSegment, cut: seq<Segment>, S: seq<Byte>)
    requires Within(r, cut, S) && MarksFull(r) && Due(r, x)
    ensures MarksFull(Consume(r, x))
  {
    hide Boundary, InOrder, Aligned, Consume, Filled, CloseSeen, CutFrom, Sorted, FromArrivals;
    ConsumeFrame(r, x);
    var r' := Consume(r, x);
    forall sg | sg in r'.arrived && Ends(sg.flags) && sg.data != [] && |r'.readout| < sg.End() <= r'.rsn
      ensures Boundary(r', sg.End())
    {
      ConsumeBoundary(r, x, S, sg.End());
      if sg.End() > r.rsn {
        assert Overlap(sg, Origin(x));
      }
    }
  }

  lemma ConsumeCloseLast(r: Receiver, x: RxSegment, cut: seq<Segment>, S: seq<Byte>)
    requires Within(r, cut, S) && CloseLast(r.rsegs) && Due(r, x)
    ensures CloseLast(Consume(r, x).rsegs)
  {
    hide Boundary, Balanced, Aligned, Consume, Filled, CloseSeen, Sorted, FromArrivals, BytesOf, Volume;
    ConsumeFrame(r, x);
    var q := r.rsegs + [x];
    forall i | 0 <= i < |q| && q[i].flags.close ensures Volume(q[i + 1..]) == 0 {
      if i < |r.rsegs| {
        CloseAtEnd(r, cut, S);
        assert CutFrom(S, Origin(x));
        assert q[i + 1..] == r.rsegs[i + 1..] + [x];
        VolumeAppend(r.rsegs[i + 1..], x);
      } else {
        assert q[i + 1..] == [];
        NoVolume();
      }
    }
  }

  lemma NoVolume()
    ensures Volume([]) == 0
  {
  }

  lemma ConsumeSeen(r: Receiver, x: RxSegment, cut: seq<Segment>, S: seq<Byte>, c: Segment)
    requires Within(r, cut, S) && Due(r, x) && c in r.arrived && c.data == []
    requires c == Origin(x) || Seen(r, c)
    ensures Seen(Consume(r, x), c)
  {
    hide Aligned, Consume, Filled, CloseSeen, Sorted, FromArrivals, BytesOf, Volume, Sum, Stashes;
    ConsumeFrame(r, x);
    assert CutFrom(S, Origin(x));
  }

  lemma ConsumeMarks(r: Receiver, x: RxSegment, cut: seq<Segment>, S: seq<Byte>)
    requires Within(r, cut, S) && Due(r, x)
    requires MarksSound(r) && MarksFull(r) && CloseLast(r.rsegs)
    requires forall c :: c in r.arrived && c.data == [] && c != Origin(x) ==> Seen(r, c)
    ensures Marks(Consume(r, x))
  {
    hide MarksSound, MarksFull, CloseLast, Seen, Within, Due, Consume;
    DueFacts(r, x);
    ConsumeFrame(r, x);
    WithinCoherent(r, cut, S);
    ConsumeSound(r, x, S);
    ConsumeFull(r, x, cut, S);
    ConsumeCloseLast(r, x, cut, S);
    forall c | c in r.arrived && c.data == [] ensures Seen(Consume(r, x), c) {
      ConsumeSeen(r, x, cut, S, c);
    }
  }

  lemma DueFacts(r: Receiver, x: RxSegment)
    requires Due(r, x)
    ensures x.Valid() && x.rsn + x.skip == r.rsn && Origin(x) in r.arrived
  {
  }

  lemma WithinCoherent(r: Receiver, cut: seq<Segment>, S: seq<Byte>)
    requires Within(r, cut, S)
    ensures Coherent(r, S) && WellCut(cut, S)
  {
  }

  // ---------- pulling from the reorder list ----------

  lemma DroppedMarks(r: Receiver)
    requires r.rahead != [] && MarksSound(r) && MarksFull(r)
    ensures MarksSound(Dropped(r)) && MarksFull(Dropped(r)) && Dropped(r).rsegs == r.rsegs
  {
    hide Sum;
    assert forall p :: Boundary(Dropped(r), p) <==> Boundary(r, p);
  }

  lemma DroppedSeen(r: Receiver, c: Segment)
    requires r.rahead != [] && Seen(r, c)
    ensures Seen(Dropped(r), c) || c == Origin(r.rahead[0])
  {
    if Stashes(r.rahead, c) {
      var i :| 0 <= i < |r.rahead| && Origin(r.rahead[i]) == c;
      if i > 0 { assert Origin(r.rahead[1..][i - 1]) == c; }
    }
  }

  /** An entry that is dropped unread is no empty segment. */
  lemma DroppedNotEmpty(r: Receiver, cut: seq<Segment>, S: seq<Byte>)
    requires Within(r, cut, S) && r.rahead != [] && r.rahead[0].rsn <= r.rsn && !Useful(r.rsn, r.rahead[0])
    ensures Origin(r.rahead[0]).data != []
  {
    hide Aligned, Balanced, Filled, CloseSeen, Sorted, BytesOf;
    assert Origin(r.rahead[0]) in r.arrived;
  }

  lemma DroppedWithin(r: Receiver, cut: seq<Segment>, S: seq<Byte>)
    requires Within(r, cut, S) && r.rahead != []
    ensures Within(Dropped(r), cut, S)
  {
    hide Coherent, WellCut;
    DroppedCoherent(r, S);
  }

  lemma PullDropMarks(r: Receiver, cut: seq<Segment>, S: seq<Byte>)
    requires Within(r, cut, S) && Marks(r) && r.rahead != [] && r.rahead[0].rsn <= r.rsn && !Useful(r.rsn, r.rahead[0])
    ensures Within(Dropped(r), cut, S) && Marks(Dropped(r))
  {
    hide Within, MarksSound, MarksFull, Seen, CloseLast;
    DroppedWithin(r, cut, S);
    DroppedMarks(r);
    DroppedNotEmpty(r, cut, S);
    forall c | c in r.arrived && c.data == [] ensures Seen(Dropped(r), c) { DroppedSeen(r, c); }
  }

  lemma PullTakeMarks(r: Receiver, cut: seq<Segment>, S: seq<Byte>)
    requires Within(r, cut, S) && Marks(r) && r.rahead != [] && r.rahead[0].rsn <= r.rsn && Useful(r.rsn, r.rahead[0])
    ensures Within(PullOne(r), cut, S) && Marks(PullOne(r))
  {
    hide Within, MarksSound, MarksFull, Seen, CloseLast, Consume, Coherent;
    var x := r.rahead[0].(skip := r.rsn - r.rahead[0].rsn);
    HeadDue(r, cut, S);
    DroppedWithin(r, cut, S);
    DroppedMarks(r);
    forall c | c in r.arrived && c.data == [] && c != Origin(x) ensures Seen(Dropped(r), c) { DroppedSeen(r, c); }
    ConsumeMarks(Dropped(r), x, cut, S);
    ConsumeWithin(Dropped(r), x, cut, S);
  }

  lemma ConsumeWithin(r: Receiver, x: RxSegment, cut: seq<Segment>, S: seq<Byte>)
    requires Within(r, cut, S) && Due(r, x)
    ensures Within(Consume(r, x), cut, S)
  {
    hide Coherent, WellCut, Consume;
    ConsumeFrame(r, x);
    ConsumeCoherent(r, x, S);
  }

  lemma HeadDue(r: Receiver, cut: seq<Segment>, S: seq<Byte>)
    requires Within(r, cut, S) && r.rahead != [] && r.rahead[0].rsn <= r.rsn && Useful(r.rsn, r.rahead[0])
    ensures Due(Dropped(r), r.rahead[0].(skip := r.rsn - r.rahead[0].rsn))
  {
    hide WellCut, InOrder, Balanced, Aligned, Filled, CloseSeen, Sorted;
    assert Origin(r.rahead[0]) in r.arrived;
  }

  lemma {:induction false} PullMarks(r: Receiver, closed: bool, cut: seq<Segment>, S: seq<Byte>)
    requires Within(r, cut, S) && Marks(r)
    ensures Marks(Pull(r, closed).0)
    decreases |r.rahead|
  {
    hide Within, Marks;
    if r.rahead != [] && r.rahead[0].rsn <= r.rsn {
      if Useful(r.rsn, r.rahead[0]) {
        PullTakeMarks(r, cut, S);
        PullMarks(PullOne(r), closed || r.rahead[0].flags.close, cut, S);
      } else {
        PullDropMarks(r, cut, S);
        PullMarks(Dropped(r), closed, cut, S);
      }
    }
  }

  // ---------- a segment arrives ----------

  function Arrival(r: Receiver, sg: Segment): Receiver {
    r.(arrived := r.arrived + [sg])
  }

  lemma ArrivalSame(r: Receiver, sg: Segment)
    ensures forall p :: Boundary(Arrival(r, sg), p) <==> Boundary(r, p)
    ensures forall c :: Seen(Arrival(r, sg), c) <==> Seen(r, c)
    ensures forall p :: MarkedAt(r.arrived, p) ==> MarkedAt(r.arrived + [sg], p)
  {
    hide Sum;
    forall p | MarkedAt(r.arrived, p) ensures MarkedAt(r.arrived + [sg], p) {
      var y :| y in r.arrived && Ends(y.flags) && y.End() == p;
      assert y in r.arrived + [sg];
    }
  }

  /** A non-empty segment that ends at or below rsn has arrived before. */
  lemma RepeatOf(r: Receiver, sg: Segment, cut: seq<Segment>, S: seq<Byte>)
    requires Within(r, cut, S) && sg in cut && sg.data != [] && sg.End() <= r.rsn
    ensures sg in r.arrived
  {
    hide InOrder, Balanced, Aligned, CloseSeen, FromArrivals, Sorted, CutFrom;
    assert Covers(r.arrived, sg.End() - 1);
    var y :| y in r.arrived && y.tsn <= sg.End() - 1 < y.End();
    assert Overlap(y, sg);
  }

  lemma ArrivalMarks(r: Receiver, sg: Segment, cut: seq<Segment>, S: seq<Byte>)
    requires Within(r, cut, S) && Marks(r) && sg in cut
    ensures MarksSound(Arrival(r, sg)) && MarksFull(Arrival(r, sg)) && CloseLast(Arrival(r, sg).rsegs)
    ensures forall c :: c in r.arrived && c.data == [] ==> Seen(Arrival(r, sg), c)
  {
    hide Within, Boundary, Seen, CloseLast, MarkedAt;
    ArrivalSame(r, sg);
    if sg.data != [] && sg.End() <= r.rsn { RepeatOf(r, sg, cut, S); }
  }

  lemma ArrivalWithin(r: Receiver, sg: Segment, cut: seq<Segment>, S: seq<Byte>)
    requires ReceiverOk(r, S) && Within(r, cut, S) && sg in cut
    ensures Within(Arrival(r, sg), cut, S)
  {
    hide Coherent, Overlap, Beyond, HoldsAll, CutFrom;
    ArrivedCoherent(r, sg, S);
  }

  lemma StashMarks(r: Receiver, sg: Segment, cut: seq<Segment>, S: seq<Byte>)
    requires Within(r, cut, S) && sg in r.arrived && sg.tsn > r.rsn
    requires MarksSound(r) && MarksFull(r) && CloseLast(r.rsegs)
    requires forall c :: c in r.arrived && c.data == [] && c != sg ==> Seen(r, c)
    ensures Marks(Stash(r, RxSegment(sg.tsn, sg.data, 0, sg.flags)))
  {
    hide WellCut, Coherent, MarksSound, MarksFull, CloseLast, Seen, LowerBound;
    var x := RxSegment(sg.tsn, sg.data, 0, sg.flags);
    var lo := LowerBound(r.rahead, x.rsn);
    if Redundant(r.rahead, lo, x) {
      StashSame(r, lo, x, sg, cut, S);
    } else {
      assert Origin(x) == sg;
      forall c | c in r.arrived && c.data == [] ensures Seen(Stashed(r, lo, x), c) { StashedSeen(r, lo, x, c); }
      StashedMarks(r, lo, x);
    }
  }

  lemma StashSame(r: Receiver, lo: nat, x: RxSegment, sg: Segment, cut: seq<Segment>, S: seq<Byte>)
    requires Within(r, cut, S) && Redundant(r.rahead, lo, x) && x == RxSegment(sg.tsn, sg.data, 0, sg.flags) && sg in cut
    ensures Seen(r, sg)
  {
    hide InOrder, Balanced, Aligned, CloseSeen, Filled, Sorted, CutFrom;
    assert Origin(r.rahead[lo]) in r.arrived;
    assert Overlap(Origin(r.rahead[lo]), sg);
  }

  lemma StashedSeen(r: Receiver, lo: nat, x: RxSegment, c: Segment)
    requires lo <= |r.rahead| && (c == Origin(x) || Seen(r, c))
    ensures Seen(Stashed(r, lo, x), c)
  {
    var q := Stashed(r, lo, x).rahead;
    if c == Origin(x) {
      assert q[lo] == x;
    } else if Stashes(r.rahead, c) {
      var i :| 0 <= i < |r.rahead| && Origin(r.rahead[i]) == c;
      assert Origin(q[if i < lo then i else i + 1]) == c;
    }
  }

  lemma StashedMarks(r: Receiver, lo: nat, x: RxSegment)
    requires lo <= |r.rahead| && MarksSound(r) && MarksFull(r)
    ensures MarksSound(Stashed(r, lo, x)) && MarksFull(Stashed(r, lo, x))
  {
    hide Sum, Inserted;
    assert forall p :: Boundary(Stashed(r, lo, x), p) <==> Boundary(r, p);
  }

  /** A segment beyond rsn is kept unless an entry at its place has all its bytes and its flags. */
  lemma NewSegmentKept(r: Receiver, x: RxSegment)
    requires forall y :: y in r.rahead ==> !(y.rsn == x.rsn && x.Size() <= y.Size() && x.flags == y.flags)
    ensures x in Stash(r, x).rahead && Stash(r, x).rbufused == r.rbufused + x.Size()
    ensures |Stash(r, x).rahead| == |r.rahead| + 1
  {
    var lo := LowerBound(r.rahead, x.rsn);
    if lo < |r.rahead| { assert r.rahead[lo] in r.rahead; }
    assert Stash(r, x).rahead == r.rahead[..lo] + [x] + r.rahead[lo..];
  }

  /** Flags that arrive when their bytes are already there still count: the segment is queued, and a
      message mark ends the message in progress. */
  lemma LateFlags(r: Receiver, sg: Segment, S: seq<Byte>)
    requires ReceiverOk(r, S) && sg.End() == r.rsn && HasFlags(sg.flags) && !sg.flags.close
    ensures RxData(r, sg).rsegs == r.rsegs + [RxSegment(sg.tsn, sg.data, |sg.data|, sg.flags)]
    ensures RxData(r, sg).rsn == r.rsn && RxData(r, sg).ravail == r.ravail
    ensures sg.flags.message ==> RxData(r, sg).rmsgavail == 0
    ensures sg.flags.message && r.rmsgavail > 0 ==> RxData(r, sg).rmsgsize == r.rmsgsize + [r.rmsgavail]
  {
    hide InOrder, Aligned, CloseSeen, Filled, CutFrom, HoldsAll, Volume, Sum, HasClose;
    assert r.rahead == [] || r.rahead[0].rsn > r.rsn;
  }

  /** A segment that already waits in the reorder list is not kept twice. */
  lemma DuplicateDropped(r: Receiver, sg: Segment, cut: seq<Segment>, S: seq<Byte>)
    requires ReceiverOk(r, S) && WellCut(cut, S) && (forall y :: y in r.arrived ==> y in cut) && Stashes(r.rahead, sg)
    ensures RxData(r, sg) == Arrival(r, sg)
  {
    hide InOrder, Balanced, Aligned, CloseSeen, Filled, CutFrom, HoldsAll, LowerBound;
    var i :| 0 <= i < |r.rahead| && Origin(r.rahead[i]) == sg;
    assert sg in r.arrived && r.rahead[i].rsn == sg.tsn > r.rsn;
    LowerBoundSplits(r.rahead, sg.tsn);
    var lo := LowerBound(r.rahead, sg.tsn);
    assert r.rahead[lo].rsn == sg.tsn;
    assert Origin(r.rahead[lo]) in r.arrived;
    assert Overlap(Origin(r.rahead[lo]), sg);
  }

  lemma OkWithin(r: Receiver, cut: seq<Segment>, S: seq<Byte>)
    requires ReceiverOk(r, S) && WellCut(cut, S) && forall y :: y in r.arrived ==> y in cut
    ensures Within(r, cut, S)
  {
  }

  /** An arriving empty segment at or below rsn is useful: it closes the stream. */
  lemma EmptyUseful(r: Receiver, sg: Segment, cut: seq<Segment>, S: seq<Byte>)
    requires Within(r, cut, S) && sg in cut && sg.data == [] && sg.tsn <= r.rsn
    ensures Useful(r.rsn, RxSegment(sg.tsn, sg.data, 0, sg.flags))
  {
    hide Balanced, Aligned, CloseSeen, Filled, Sorted, BytesOf;
  }

  lemma AcceptMarks(r: Receiver, sg: Segment, cut: seq<Segment>, S: seq<Byte>)
    requires Within(r, cut, S) && sg in r.arrived
    requires MarksSound(r) && MarksFull(r) && CloseLast(r.rsegs)
    requires forall c :: c in r.arrived && c.data == [] && c != sg ==> Seen(r, c)
    ensures !Accept(r, sg).endread ==> Marks(Accept(r, sg))
  {
    hide Within, MarksSound, MarksFull, CloseLast, Seen, Consume, Pull, Stash;
    var x := RxSegment(sg.tsn, sg.data, 0, sg.flags);
    WithinFacts(r, cut, S);
    if sg.tsn > r.rsn {
      StashMarks(r, sg, cut, S);
    } else if Useful(r.rsn, x) {
      var x1 := x.(skip := r.rsn - x.rsn);
      assert Origin(x1) == sg;
      ConsumeMarks(r, x1, cut, S);
      ConsumeWithin(r, x1, cut, S);
      PullMarks(Consume(r, x1), sg.flags.close, cut, S);
    } else {
      if sg.data == [] { EmptyUseful(r, sg, cut, S); }
    }
  }

  lemma WithinFacts(r: Receiver, cut: seq<Segment>, S: seq<Byte>)
    requires Within(r, cut, S)
    ensures forall y :: y in r.arrived ==> y in cut
  {
  }

  /** Any segment of the cut, in any order, any number of times, keeps the boundaries faithful. */
  lemma RxDataFaithful(r: Receiver, sg: Segment, cut: seq<Segment>, S: seq<Byte>)
    requires Faithful(r, S) && WellCut(cut, S) && sg in cut && forall y :: y in r.arrived ==> y in cut
    ensures Faithful(RxData(r, sg), S) && RxData(r, sg).arrived == r.arrived + [sg]
  {
    hide ReceiverOk, CloseSeen, Marks, Accept, Overlap;
    RxDataSafe(r, sg, S);
    if !r.endread {
      OkWithin(r, cut, S);
      ArrivalWithin(r, sg, cut, S);
      ArrivalMarks(r, sg, cut, S);
      AcceptMarks(Arrival(r, sg), sg, cut, S);
    }
  }

  // ---------- reading ----------

  /** Reading a segment forgets exactly the boundaries it reaches. */
  lemma ReadBoundary(r: Receiver, S: seq<Byte>, p: int)
    requires ReceiverOk(r, S) && r.rsegs != [] && r.rsegs[0].Valid()
    ensures Boundary(ReadOpen(r), p) <==> Boundary(r, p) && p > |ReadOpen(r).readout|
  {
    hide ReceiverOk, Balanced, Aligned, InOrder, Sum;
    OkParts(r, S);
    if r.rmsgsize != [] {
      HeadFits(r);
      if r.rsegs[0].Size() == r.rmsgsize[0] { PopBoundary(r, p); } else { TrimBoundary(r, p); }
    }
  }

  lemma SumAfterFirst(s: seq<int>, j: nat)
    requires forall i :: 0 <= i < |s| ==> s[i] > 0
    requires 0 < j <= |s|
    ensures Sum(s[..j]) == s[0] + Sum(s[1..][..j - 1])
    ensures j > 1 ==> Sum(s[1..][..j - 1]) > 0
    ensures j == 1 ==> Sum(s[..j]) == s[0]
  {
    SumTail(s[..j]);
    assert s[..j][1..] == s[1..][..j - 1];
    if j > 1 { SumPositive(s[1..], j - 1); }
  }

  lemma PopBoundary(r: Receiver, p: int)
    requires r.rsegs != [] && r.rsegs[0].Valid() && r.rmsgsize != [] && r.rsegs[0].Size() == r.rmsgsize[0]
    requires forall i :: 0 <= i < |r.rmsgsize| ==> r.rmsgsize[i] > 0
    ensures Boundary(ReadOpen(r), p) <==> Boundary(r, p) && p > |ReadOpen(r).readout|
  {
    hide Sum;
    var r', s := ReadOpen(r), r.rmsgsize;
    assert |r'.readout| == |r.readout| + s[0] && r'.rmsgsize == s[1..];
    if Boundary(r', p) {
      var j :| 0 < j <= |s[1..]| && |r'.readout| + Sum(s[1..][..j]) == p;
      SumAfterFirst(s, j + 1);
      assert |r.readout| + Sum(s[..j + 1]) == p;
    }
    if Boundary(r, p) && p > |r'.readout| {
      var j :| 0 < j <= |s| && |r.readout| + Sum(s[..j]) == p;
      SumAfterFirst(s, j);
      assert |r'.readout| + Sum(r'.rmsgsize[..j - 1]) == p;
    }
  }

  lemma TrimBoundary(r: Receiver, p: int)
    requires r.rsegs != [] && r.rsegs[0].Valid() && r.rmsgsize != [] && r.rsegs[0].Size() < r.rmsgsize[0]
    requires forall i :: 0 <= i < |r.rmsgsize| ==> r.rmsgsize[i] > 0
    ensures Boundary(ReadOpen(r), p) <==> Boundary(r, p) && p > |ReadOpen(r).readout|
  {
    hide Sum;
    var r', s := ReadOpen(r), r.rmsgsize;
    var h := s[0] - r.rsegs[0].Size();
    assert r'.rmsgsize == [h] + s[1..];
    forall j | 0 < j <= |s|
      ensures |r'.readout| + Sum(r'.rmsgsize[..j]) == |r.readout| + Sum(s[..j]) > |r'.readout|
    {
      SumHead(s, j, h);
      SumPositive(r'.rmsgsize, j);
    }
  }

  lemma ReadOpenMarks(r: Receiver, S: seq<Byte>)
    requires ReceiverOk(r, S) && Marks(r) && r.rsegs != []
    ensures r.rsegs[0].Valid() && Marks(ReadOpen(r))
  {
    hide ReceiverOk, Boundary, CloseLast, Balanced, Aligned, InOrder, Stashes, MarkedAt;
    ReadOpenKeeps(r, S);
    OkParts(ReadOpen(r), S);
    OkParts(r, S);
    forall p { ReadBoundary(r, S, p); }
    CloseLastTail(r.rsegs);
  }

  lemma ReadOneFaithful(r: Receiver, S: seq<Byte>)
    requires ReceiverOk(r, S) && Marks(r) && r.rsegs != []
    ensures r.rsegs[0].Valid() && Faithful(ReadOne(r).0, S)
  {
    hide ReceiverOk, ReceiverSafe, Marks, ReadOne, ReadOpen, Shutdown;
    ReadOneKeeps(r, S);
    ReadOpenKeeps(r, S);
    ReadOneClosing(r, S);
    ReadOpenMarks(r, S);
    ShutdownEnds(ReadOpen(r));
  }

  lemma ShutdownEnds(r: Receiver)
    ensures Shutdown(r).endread
  {
  }

  /** Reading keeps the boundaries faithful. */
  lemma {:induction false} ReadDataFaithful(r: Receiver, max: int, S: seq<Byte>)
    requires Faithful(r, S)
    ensures Faithful(ReadData(r, max), S) && ReadData(r, max).arrived == r.arrived
    decreases |r.rsegs|
  {
    hide ReceiverOk, ReadOne, Marks, CloseSeen;
    ReadDataKeeps(r, max, S);
    if max <= 0 || r.ravail <= 0 || r.rsegs == [] || !r.rsegs[0].Valid() || r.rsegs[0].Size() > max {
    } else {
      ReadOneFaithful(r, S);
      ReadOneKeeps(r, S);
      if ReadOne(r).1 && |ReadOne(r).0.rsegs| < |r.rsegs| {
        ReadDataFaithful(ReadOne(r).0, max - r.rsegs[0].Size(), S);
      }
    }
  }

  // ---------- what the reader sees ----------

  /** Among the bytes that are ready, the unread boundaries are exactly the marked positions. */
  lemma BoundariesExact(r: Receiver, cut: seq<Segment>, S: seq<Byte>, p: int)
    requires Faithful(r, S) && !r.endread && WellCut(cut, S) && forall y :: y in r.arrived ==> y in cut
    requires |r.readout| < p <= r.rsn
    ensures Boundary(r, p) <==> MarkedAt(r.arrived, p)
  {
    hide Aligned, InOrder, Balanced, Filled, CloseSeen, HasClose, Sum, Boundary, Overlap;
    if MarkedAt(r.arrived, p) {
      var sg :| sg in r.arrived && Ends(sg.flags) && sg.End() == p;
      if sg.data == [] {
        assert Seen(r, sg);
        LastBoundary(r, S);
        assert CutFrom(S, sg);
      }
    }
  }

  lemma LastBoundary(r: Receiver, S: seq<Byte>)
    requires InOrder(r, S) && Balanced(r) && !r.endread && r.rmsgavail == 0 && |r.readout| < r.rsn
    ensures Boundary(r, r.rsn)
  {
    Reach(r, S);
    assert r.rmsgsize[..|r.rmsgsize|] == r.rmsgsize;
  }

  /** Strictly below rsn the marks that arrived are all the marks the sender made. */
  lemma MarksOfCut(r: Receiver, cut: seq<Segment>, S: seq<Byte>, p: int)
    requires ReceiverOk(r, S) && WellCut(cut, S) && (forall y :: y in r.arrived ==> y in cut) && p < r.rsn
    ensures MarkedAt(r.arrived, p) <==> MarkedAt(cut, p)
  {
    hide Aligned, Balanced, Filled, CloseSeen, HasClose, Holds, Overlap, BytesOf;
    if MarkedAt(cut, p) {
      var sg :| sg in cut && Ends(sg.flags) && sg.End() == p;
      if sg.data != [] { RepeatOf(r, sg, cut, S); }
    }
  }

  /** What readMessage did: it handed out exactly the bytes of S up to the next position the sender
      marked as the end of a message. */
  ghost predicate OneMessage(was: Receiver, now: Receiver, cut: seq<Segment>, S: seq<Byte>) {
    && |was.readout| < |now.readout| <= |S|
    && now.readout == S[..|now.readout|]
    && MarkedAt(cut, |now.readout|)
    && forall p :: |was.readout| < p < |now.readout| ==> !MarkedAt(cut, p)
  }

  lemma NextMessage(r: Receiver, max: int, cut: seq<Segment>, S: seq<Byte>)
    requires Faithful(r, S) && !r.endread && WellCut(cut, S) && (forall y :: y in r.arrived ==> y in cut)
    requires r.rmsgsize != [] && r.rmsgsize[0] <= max
    ensures Fits(r, max) && OneMessage(r, ReadData(r, max), cut, S)
  {
    hide ReceiverOk, Boundary, MarkedAt, WellCut, ReadData, Fits, CloseLast;
    MessageExact(r, max, S);
    FirstBoundary(r, S);
    OkReach(r, S);
    MarkedMore(r.arrived, cut, |r.readout| + r.rmsgsize[0]);
    forall p | |r.readout| < p < |r.readout| + r.rmsgsize[0] ensures !MarkedAt(cut, p) {
      BoundariesExact(r, cut, S, p);
      MarksOfCut(r, cut, S, p);
    }
  }

  lemma MarkedMore(arrived: seq<Segment>, cut: seq<Segment>, p: int)
    requires forall y :: y in arrived ==> y in cut
    ensures MarkedAt(arrived, p) ==> MarkedAt(cut, p)
  {
  }

  lemma OkReach(r: Receiver, S: seq<Byte>)
    requires ReceiverOk(r, S) && r.rmsgsize != []
    ensures |r.readout| + r.rmsgsize[0] <= r.rsn
  {
    hide Filled, Holds, Aligned;
    Reach(r, S);
    SumTail(r.rmsgsize);
    SumAllNonNegative(r.rmsgsize[1..]);
  }

  lemma FirstBoundary(r: Receiver, S: seq<Byte>)
    requires ReceiverOk(r, S) && r.rmsgsize != []
    ensures Boundary(r, |r.readout| + r.rmsgsize[0]) && r.rmsgsize[0] > 0
    ensures forall p :: |r.readout| < p < |r.readout| + r.rmsgsize[0] ==> !Boundary(r, p)
  {
    hide Sum, Filled, Holds, Aligned, InOrder;
    var s := r.rmsgsize;
    SumAfterFirst(s, 1);
    assert |r.readout| + Sum(s[..1]) == |r.readout| + s[0];
    forall j | 0 < j <= |s| ensures Sum(s[..j]) >= s[0] { SumAfterFirst(s, j); }
  }
}
