/** What reassembly keeps, for any order, repetition or loss of segments cut from one byte string. */
module Reassembly {
  import opened StreamSend
  import opened StreamReceive

  // ---------- the invariant ----------

  /** The segment carries the bytes of S at its position. */
  predicate CutFrom(S: seq<Byte>, sg: Segment) {
    sg.End() <= |S| && sg.data == S[sg.tsn..sg.End()]
  }

  predicate AllValid(q: seq<RxSegment>) {
    forall i :: 0 <= i < |q| ==> q[i].Valid()
  }

  function BytesOf(q: seq<RxSegment>): seq<Byte>
    requires AllValid(q)
  {
    if q == [] then [] else BytesOf(q[..|q| - 1]) + q[|q| - 1].Bytes()
  }

  function Volume(q: seq<RxSegment>): int {
    if q == [] then 0 else Volume(q[..|q| - 1]) + q[|q| - 1].Size()
  }

  function Sum(s: seq<int>): int {
    if s == [] then 0 else Sum(s[..|s| - 1]) + s[|s| - 1]
  }

  /** Bytes handed out and bytes queued are S, from the start up to rsn. */
  ghost predicate InOrder(r: Receiver, S: seq<Byte>) {
    && AllValid(r.rsegs)
    && r.rsn <= |S|
    && (!r.endread ==> r.readout + BytesOf(r.rsegs) == S[..r.rsn])
    && r.readout <= S[..r.rsn]
  }

  /** The counters: bytes ready, bytes per message, buffer use. */
  ghost predicate Balanced(r: Receiver) {
    && r.ravail == Volume(r.rsegs)
    && r.ravail == Sum(r.rmsgsize) + r.rmsgavail
    && r.rbufused == r.ravail + Volume(r.rahead)
    && r.rmsgavail >= 0
    && (forall j :: 0 <= j < |r.rmsgsize| ==> r.rmsgsize[j] > 0)
  }

  /** Every message boundary falls on a segment end. */
  ghost predicate Aligned(r: Receiver) {
    forall j :: 0 <= j <= |r.rmsgsize| ==> EndsAt(r.rsegs, Sum(r.rmsgsize[..j]))
  }

  ghost predicate EndsAt(q: seq<RxSegment>, p: int) {
    exists i :: 0 <= i <= |q| && Volume(q[..i]) == p
  }

  ghost predicate Sorted(q: seq<RxSegment>) {
    forall i, j :: 0 <= i < j < |q| ==> q[i].rsn <= q[j].rsn
  }

  /** Where the entries of the reorder list come from. */
  ghost predicate FromArrivals(r: Receiver) {
    forall i :: 0 <= i < |r.rahead| ==>
      r.rahead[i].skip == 0 && Segment(r.rahead[i].rsn, r.rahead[i].body, r.rahead[i].flags) in r.arrived
  }

  predicate Beyond(q: seq<RxSegment>, rsn: nat) {
    forall i :: 0 <= i < |q| ==> rsn < q[i].rsn
  }

  predicate CoveredBy(q: seq<RxSegment>, sg: Segment) {
    exists x :: x in q && x.rsn == sg.tsn && |sg.data| <= |x.body|
  }

  /** The receiver has all bytes of the segment: below rsn or in the reorder list. */
  predicate Holds(r: Receiver, sg: Segment) {
    sg.End() <= r.rsn || CoveredBy(r.rahead, sg)
  }

  ghost predicate HoldsAll(r: Receiver) {
    forall sg :: sg in r.arrived ==> Holds(r, sg)
  }

  ghost predicate Covers(arrived: seq<Segment>, k: nat) {
    exists sg :: sg in arrived && sg.tsn <= k < sg.End()
  }

  ghost predicate Filled(r: Receiver) {
    forall k :: 0 <= k < r.rsn ==> Covers(r.arrived, k)
  }

  /** The end of the stream has been reached: a closing segment arrived and lies below rsn. */
  ghost predicate CloseSeen(r: Receiver) {
    exists sg :: sg in r.arrived && sg.flags.close && sg.End() <= r.rsn
  }

  predicate HasClose(q: seq<RxSegment>) {
    exists i :: 0 <= i < |q| && q[i].flags.close
  }

  /** The bytes, the counters and the reorder list agree. */
  ghost predicate Coherent(r: Receiver, S: seq<Byte>) {
    && InOrder(r, S) && Balanced(r) && Aligned(r)
    && Sorted(r.rahead) && FromArrivals(r) && Filled(r)
    && (HasClose(r.rsegs) ==> CloseSeen(r))
    && !r.endread
    && (forall sg :: sg in r.arrived ==> CutFrom(S, sg))
  }

  /** The invariant inside rxData, before the reorder list is known to lie beyond rsn. */
  ghost predicate Loose(r: Receiver, S: seq<Byte>) {
    Coherent(r, S) && HoldsAll(r)
  }

  /** The invariant of an open receiver. */
  ghost predicate ReceiverOk(r: Receiver, S: seq<Byte>) {
    Loose(r, S) && Beyond(r.rahead, r.rsn)
  }

  /** rsn is exactly the first position no received segment covers. */
  lemma FirstGap(r: Receiver, S: seq<Byte>)
    requires ReceiverOk(r, S)
    ensures !Covers(r.arrived, r.rsn) && forall k :: 0 <= k < r.rsn ==> Covers(r.arrived, k)
  {
    forall sg | sg in r.arrived ensures !(sg.tsn <= r.rsn < sg.End()) {
      assert Holds(r, sg);
    }
  }

  // ---------- sums ----------

  lemma BytesAppend(q: seq<RxSegment>, x: RxSegment)
    requires AllValid(q) && x.Valid()
    ensures AllValid(q + [x]) && BytesOf(q + [x]) == BytesOf(q) + x.Bytes()
  {
    assert (q + [x])[..|q|] == q;
  }

  lemma VolumeAppend(q: seq<RxSegment>, x: RxSegment)
    ensures Volume(q + [x]) == Volume(q) + x.Size()
  {
    assert (q + [x])[..|q|] == q;
  }

  lemma SumAppend(s: seq<int>, x: int)
    ensures Sum(s + [x]) == Sum(s) + x
  {
    assert (s + [x])[..|s|] == s;
  }

  lemma {:induction false} VolumeTail(q: seq<RxSegment>)
    requires q != []
    ensures Volume(q) == q[0].Size() + Volume(q[1..])
  {
    if |q| > 1 {
      VolumeTail(q[..|q| - 1]);
      assert q[..|q| - 1][1..] == q[1..][..|q| - 2];
    }
  }

  lemma SeqAssoc(a: seq<Byte>, b: seq<Byte>, c: seq<Byte>)
    ensures (a + b) + c == a + (b + c)
  {
  }

  lemma {:induction false} BytesTail(q: seq<RxSegment>)
    requires AllValid(q) && q != []
    ensures BytesOf(q) == q[0].Bytes() + BytesOf(q[1..])
  {
    if |q| > 1 {
      var init, last := q[..|q| - 1], q[|q| - 1];
      BytesTail(init);
      BytesAppend(init[1..], last);
      assert init[1..] + [last] == q[1..];
      SeqAssoc(q[0].Bytes(), BytesOf(init[1..]), last.Bytes());
    } else {
      assert q[1..] == [] && q[..0] == [];
    }
  }

  lemma {:induction false} SumTail(s: seq<int>)
    requires s != []
    ensures Sum(s) == s[0] + Sum(s[1..])
  {
    if |s| > 1 {
      SumTail(s[..|s| - 1]);
      assert s[..|s| - 1][1..] == s[1..][..|s| - 2];
    }
  }

  lemma {:induction false} BytesVolume(q: seq<RxSegment>)
    requires AllValid(q)
    ensures |BytesOf(q)| == Volume(q)
  {
    if q != [] { BytesVolume(q[..|q| - 1]); }
  }

  lemma {:induction false} VolumeSplit(a: seq<RxSegment>, b: seq<RxSegment>)
    ensures Volume(a + b) == Volume(a) + Volume(b)
  {
    if b == [] {
      assert a + b == a;
    } else {
      assert (a + b)[..|a + b| - 1] == a + b[..|b| - 1];
      VolumeSplit(a, b[..|b| - 1]);
    }
  }

  // ---------- consuming a segment ----------

  lemma ConsumeInOrder(r: Receiver, x: RxSegment, S: seq<Byte>)
    requires InOrder(r, S) && !r.endread && x.Valid() && x.rsn + x.skip == r.rsn
    requires x.rsn + |x.body| <= |S| && x.body == S[x.rsn..x.rsn + |x.body|]
    ensures InOrder(Consume(r, x), S)
  {
    hide BytesOf;
    BytesAppend(r.rsegs, x);
    SeqAssoc(r.readout, BytesOf(r.rsegs), x.Bytes());
  }

  lemma ConsumeBalanced(r: Receiver, x: RxSegment)
    requires Balanced(r) && x.Valid()
    ensures Balanced(Consume(r, x))
  {
    VolumeAppend(r.rsegs, x);
    SumAppend(r.rmsgsize, r.rmsgavail + x.Size());
  }

  lemma ConsumeAligned(r: Receiver, x: RxSegment)
    requires Balanced(r) && Aligned(r) && x.Valid()
    ensures Aligned(Consume(r, x))
  {
    var r' := Consume(r, x);
    VolumeAppend(r.rsegs, x);
    SumAppend(r.rmsgsize, r.rmsgavail + x.Size());
    forall j | 0 <= j <= |r'.rmsgsize| ensures EndsAt(r'.rsegs, Sum(r'.rmsgsize[..j])) {
      if j <= |r.rmsgsize| {
        assert r'.rmsgsize[..j] == r.rmsgsize[..j];
        assert EndsAt(r.rsegs, Sum(r.rmsgsize[..j]));
        var i :| 0 <= i <= |r.rsegs| && Volume(r.rsegs[..i]) == Sum(r.rmsgsize[..j]);
        assert r'.rsegs[..i] == r.rsegs[..i];
      } else {
        assert r'.rmsgsize[..j] == r'.rmsgsize;
        assert r'.rsegs[..|r'.rsegs|] == r'.rsegs;
      }
    }
  }

  function Origin(x: RxSegment): Segment {
    Segment(x.rsn, x.body, x.flags)
  }

  lemma ConsumeFilled(r: Receiver, x: RxSegment)
    requires Filled(r) && x.Valid() && x.rsn + x.skip == r.rsn && Origin(x) in r.arrived
    ensures Filled(Consume(r, x))
  {
    var r' := Consume(r, x);
    forall k | 0 <= k < r'.rsn ensures Covers(r'.arrived, k) {
      if k < r.rsn { assert Covers(r.arrived, k); } else { assert Origin(x).tsn <= k < Origin(x).End(); }
    }
  }

  lemma ConsumeClose(r: Receiver, x: RxSegment)
    requires HasClose(r.rsegs) ==> CloseSeen(r)
    requires x.Valid() && x.rsn + x.skip == r.rsn && Origin(x) in r.arrived
    ensures HasClose(Consume(r, x).rsegs) ==> CloseSeen(Consume(r, x))
    ensures HasClose(r.rsegs) || x.flags.close ==> HasClose(Consume(r, x).rsegs)
  {
    var r' := Consume(r, x);
    if HasClose(r.rsegs) {
      var i :| 0 <= i < |r.rsegs| && r.rsegs[i].flags.close;
      assert r'.rsegs[i].flags.close;
      var sg :| sg in r.arrived && sg.flags.close && sg.End() <= r.rsn;
      assert sg.End() <= r'.rsn;
    } else if x.flags.close {
      assert r'.rsegs[|r.rsegs|].flags.close;
      assert Origin(x).End() <= r'.rsn;
    }
  }

  lemma ConsumeCoherent(r: Receiver, x: RxSegment, S: seq<Byte>)
    requires Coherent(r, S) && x.Valid() && x.rsn + x.skip == r.rsn && Origin(x) in r.arrived
    ensures Coherent(Consume(r, x), S)
  {
    hide InOrder, Balanced, Aligned, Filled, CloseSeen, HasClose;
    assert CutFrom(S, Origin(x));
    ConsumeClose(r, x);
    ConsumeInOrder(r, x, S);
    ConsumeBalanced(r, x);
    ConsumeAligned(r, x);
    ConsumeFilled(r, x);
  }

  // ---------- the reorder list ----------

  /** r without the first entry of its reorder list. */
  function Dropped(r: Receiver): Receiver
    requires r.rahead != []
  {
    r.(rahead := r.rahead[1..], rbufused := r.rbufused - r.rahead[0].Size())
  }

  lemma DroppedCoherent(r: Receiver, S: seq<Byte>)
    requires Coherent(r, S) && r.rahead != []
    ensures Coherent(Dropped(r), S)
  {
    VolumeTail(r.rahead);
    assert forall i :: 0 <= i < |r.rahead[1..]| ==> r.rahead[1..][i] == r.rahead[i + 1];
  }

  /** Dropping the head loses only segments the head covers. */
  lemma DroppedHolds(r: Receiver, sg: Segment)
    requires r.rahead != [] && Holds(r, sg)
    ensures Holds(Dropped(r), sg) || (sg.tsn == r.rahead[0].rsn && |sg.data| <= |r.rahead[0].body|)
  {
    if sg.End() > r.rsn {
      var x :| x in r.rahead && x.rsn == sg.tsn && |sg.data| <= |x.body|;
      assert x == r.rahead[0] || x in r.rahead[1..];
    }
  }

  lemma PullStepDrop(r: Receiver, S: seq<Byte>)
    requires Loose(r, S) && r.rahead != [] && r.rahead[0].rsn <= r.rsn && !Useful(r.rsn, r.rahead[0])
    ensures Loose(Dropped(r), S)
  {
    hide Coherent, Holds;
    DroppedCoherent(r, S);
    forall sg | sg in r.arrived ensures Holds(Dropped(r), sg) {
      DroppedHolds(r, sg);
      if sg.End() <= r.rsn { EndHolds(Dropped(r), sg); }
    }
  }

  lemma EndHolds(r: Receiver, sg: Segment)
    requires sg.End() <= r.rsn
    ensures Holds(r, sg)
  {
  }

  lemma ConsumeHolds(r: Receiver, x: RxSegment, sg: Segment)
    requires x.Valid() && (Holds(r, sg) || sg.End() <= r.rsn + x.Size())
    ensures Holds(Consume(r, x), sg)
  {
  }

  function PullOne(r: Receiver): Receiver
    requires r.rahead != [] && r.rahead[0].rsn <= r.rsn && Useful(r.rsn, r.rahead[0])
  {
    Consume(Dropped(r), r.rahead[0].(skip := r.rsn - r.rahead[0].rsn))
  }

  lemma PullStepConsume(r: Receiver, S: seq<Byte>)
    requires Loose(r, S) && r.rahead != [] && r.rahead[0].rsn <= r.rsn && Useful(r.rsn, r.rahead[0])
    ensures Loose(PullOne(r), S)
  {
    var x := r.rahead[0].(skip := r.rsn - r.rahead[0].rsn);
    assert Origin(x) in r.arrived;
    DroppedCoherent(r, S);
    hide Coherent, Holds, Consume;
    ConsumeCoherent(Dropped(r), x, S);
    forall sg | sg in r.arrived ensures Holds(PullOne(r), sg) {
      DroppedHolds(r, sg);
      ConsumeHolds(Dropped(r), x, sg);
    }
  }

  lemma NoneDue(r: Receiver, S: seq<Byte>)
    requires Coherent(r, S) && (r.rahead == [] || r.rahead[0].rsn > r.rsn)
    ensures Beyond(r.rahead, r.rsn)
  {
    forall i | 0 <= i < |r.rahead| ensures r.rsn < r.rahead[i].rsn { assert r.rahead[0].rsn <= r.rahead[i].rsn; }
  }

  lemma PullOneClose(r: Receiver, S: seq<Byte>)
    requires Coherent(r, S) && r.rahead != [] && r.rahead[0].rsn <= r.rsn && Useful(r.rsn, r.rahead[0])
    ensures HasClose(r.rsegs) || r.rahead[0].flags.close ==> HasClose(PullOne(r).rsegs)
  {
    DroppedCoherent(r, S);
    ConsumeClose(Dropped(r), r.rahead[0].(skip := r.rsn - r.rahead[0].rsn));
  }

  lemma {:induction false} PullKeeps(r: Receiver, closed: bool, S: seq<Byte>)
    requires Loose(r, S) && (closed ==> HasClose(r.rsegs))
    ensures ReceiverOk(Pull(r, closed).0, S)
    ensures r.rsn <= Pull(r, closed).0.rsn && Pull(r, closed).0.arrived == r.arrived
    ensures Pull(r, closed).1 ==> HasClose(Pull(r, closed).0.rsegs)
    decreases |r.rahead|
  {
    hide Coherent, HoldsAll, HasClose;
    if r.rahead == [] || r.rahead[0].rsn > r.rsn {
      NoneDue(r, S);
    } else if !Useful(r.rsn, r.rahead[0]) {
      PullStepDrop(r, S);
      PullKeeps(Dropped(r), closed, S);
    } else {
      PullStepConsume(r, S);
      PullOneClose(r, S);
      PullKeeps(PullOne(r), closed || r.rahead[0].flags.close, S);
    }
  }

  lemma {:induction false} LowerBoundSplits(q: seq<RxSegment>, v: nat)
    requires Sorted(q)
    ensures forall i :: 0 <= i < LowerBound(q, v) ==> q[i].rsn < v
    ensures forall i :: LowerBound(q, v) <= i < |q| ==> v <= q[i].rsn
  {
    if q != [] && q[0].rsn < v {
      LowerBoundSplits(q[1..], v);
      assert forall i :: 0 < i < |q| ==> q[i] == q[1..][i - 1];
    }
  }

  function Inserted(q: seq<RxSegment>, lo: nat, x: RxSegment): seq<RxSegment>
    requires lo <= |q|
  {
    q[..lo] + [x] + q[lo..]
  }

  lemma InsertedHas(q: seq<RxSegment>, lo: nat, x: RxSegment)
    requires lo <= |q|
    ensures forall y :: y in Inserted(q, lo, x) <==> y in q || y == x
    ensures Volume(Inserted(q, lo, x)) == Volume(q) + x.Size()
  {
    assert q == q[..lo] + q[lo..];
    VolumeAppend(q[..lo], x);
    VolumeSplit(q[..lo] + [x], q[lo..]);
    VolumeSplit(q[..lo], q[lo..]);
  }

  /** Keeping a segment that lies beyond rsn. */
  lemma StashKeeps(r: Receiver, sg: Segment, S: seq<Byte>)
    requires Coherent(r, S) && Beyond(r.rahead, r.rsn) && sg in r.arrived && sg.tsn > r.rsn
    requires forall y :: y in r.arrived && y != sg ==> Holds(r, y)
    ensures ReceiverOk(Stash(r, RxSegment(sg.tsn, sg.data, 0, sg.flags)), S)
  {
    var x := RxSegment(sg.tsn, sg.data, 0, sg.flags);
    var lo := LowerBound(r.rahead, x.rsn);
    LowerBoundSplits(r.rahead, x.rsn);
    if Redundant(r.rahead, lo, x) {
      StashRedundant(r, x, sg, lo);
    } else {
      StashInserted(r, x, lo, S);
    }
  }

  lemma StashRedundant(r: Receiver, x: RxSegment, sg: Segment, lo: nat)
    requires FromArrivals(r) && Redundant(r.rahead, lo, x) && x == RxSegment(sg.tsn, sg.data, 0, sg.flags)
    ensures Holds(r, sg)
  {
    assert r.rahead[lo] in r.rahead;
  }

  /** r with one more entry in its reorder list. */
  function Stashed(r: Receiver, lo: nat, x: RxSegment): Receiver
    requires lo <= |r.rahead|
  {
    r.(rahead := Inserted(r.rahead, lo, x), rbufused := r.rbufused + x.Size())
  }

  lemma StashedSorted(r: Receiver, lo: nat, x: RxSegment)
    requires Sorted(r.rahead) && Beyond(r.rahead, r.rsn) && x.rsn > r.rsn && lo <= |r.rahead|
    requires forall i :: 0 <= i < lo ==> r.rahead[i].rsn < x.rsn
    requires forall i :: lo <= i < |r.rahead| ==> x.rsn <= r.rahead[i].rsn
    ensures Sorted(Stashed(r, lo, x).rahead) && Beyond(Stashed(r, lo, x).rahead, r.rsn)
  {
  }

  lemma StashedFrom(r: Receiver, lo: nat, x: RxSegment)
    requires FromArrivals(r) && x.skip == 0 && Origin(x) in r.arrived && lo <= |r.rahead|
    ensures FromArrivals(Stashed(r, lo, x))
  {
  }

  lemma StashedHolds(r: Receiver, lo: nat, x: RxSegment, y: Segment)
    requires lo <= |r.rahead| && (Holds(r, y) || Origin(x) == y)
    ensures Holds(Stashed(r, lo, x), y)
  {
    InsertedHas(r.rahead, lo, x);
    if Origin(x) == y {
      assert x in Stashed(r, lo, x).rahead;
    } else if y.End() > r.rsn {
      var z :| z in r.rahead && z.rsn == y.tsn && |y.data| <= |z.body|;
      assert z in Stashed(r, lo, x).rahead;
    }
  }

  lemma StashInserted(r: Receiver, x: RxSegment, lo: nat, S: seq<Byte>)
    requires Coherent(r, S) && Beyond(r.rahead, r.rsn) && x.skip == 0 && x.rsn > r.rsn && lo <= |r.rahead|
    requires Origin(x) in r.arrived
    requires forall y :: y in r.arrived && y != Origin(x) ==> Holds(r, y)
    requires forall i :: 0 <= i < lo ==> r.rahead[i].rsn < x.rsn
    requires forall i :: lo <= i < |r.rahead| ==> x.rsn <= r.rahead[i].rsn
    ensures ReceiverOk(Stashed(r, lo, x), S)
  {
    hide Sorted, Beyond, FromArrivals, Holds, Inserted, Volume, Sum, BytesOf, Aligned, InOrder, Filled;
    StashedSorted(r, lo, x);
    StashedFrom(r, lo, x);
    InsertedHas(r.rahead, lo, x);
    StashedFrame(r, lo, x, S);
    forall y | y in r.arrived ensures Holds(Stashed(r, lo, x), y) {
      StashedHolds(r, lo, x, y);
    }
  }

  lemma StashedFrame(r: Receiver, lo: nat, x: RxSegment, S: seq<Byte>)
    requires InOrder(r, S) && Aligned(r) && Filled(r) && lo <= |r.rahead|
    ensures InOrder(Stashed(r, lo, x), S) && Aligned(Stashed(r, lo, x)) && Filled(Stashed(r, lo, x))
  {
  }

  // ---------- rxData ----------

  /** Any segment of S, in any order, any number of times: rxData keeps the invariant of an open
      receiver, or it closes the stream with nothing left unread. */
  lemma RxDataKeeps(r: Receiver, sg: Segment, S: seq<Byte>)
    requires ReceiverOk(r, S) && CutFrom(S, sg)
    ensures r.rsn <= RxData(r, sg).rsn <= |S| && RxData(r, sg).arrived == r.arrived + [sg]
    ensures !RxData(r, sg).endread ==> ReceiverOk(RxData(r, sg), S)
    ensures RxData(r, sg).endread ==> RxData(r, sg).readout == S[..RxData(r, sg).rsn] && CloseSeen(RxData(r, sg))
  {
    hide Coherent, HoldsAll, Holds, HasClose, CloseSeen, Consume, Pull, Stash, Beyond;
    var r1 := r.(arrived := r.arrived + [sg]);
    ArrivedCoherent(r, sg, S);
    CoherentEnd(r, S);
    var x := RxSegment(sg.tsn, sg.data, 0, sg.flags);
    if sg.tsn > r.rsn {
      StashKeeps(r1, sg, S);
      StashFrame(r1, x);
    } else if Useful(r.rsn, x) {
      var x1 := x.(skip := r.rsn - x.rsn);
      assert Origin(x1) == sg;
      FirstConsume(r1, x1, S);
      ConsumeClose(r1, x1);
      PullKeeps(Consume(r1, x1), sg.flags.close, S);
      ConsumeAdvances(r1, x1);
      ShutWhenRead(Pull(Consume(r1, x1), sg.flags.close).0, S);
    } else {
      RepeatOk(r1, sg, S);
    }
  }

  lemma CoherentEnd(r: Receiver, S: seq<Byte>)
    requires Coherent(r, S)
    ensures r.rsn <= |S| && !r.endread
  {
  }

  lemma StashFrame(r: Receiver, x: RxSegment)
    ensures Stash(r, x).rsn == r.rsn && Stash(r, x).arrived == r.arrived && Stash(r, x).endread == r.endread
  {
  }

  lemma ConsumeAdvances(r: Receiver, x: RxSegment)
    requires x.Valid()
    ensures r.rsn <= Consume(r, x).rsn && Consume(r, x).arrived == r.arrived
  {
  }

  /** A repeated segment below rsn changes nothing. */
  lemma RepeatOk(r: Receiver, sg: Segment, S: seq<Byte>)
    requires Coherent(r, S) && Beyond(r.rahead, r.rsn) && sg.End() <= r.rsn
    requires forall y :: y in r.arrived && y != sg ==> Holds(r, y)
    ensures ReceiverOk(r, S)
  {
  }

  lemma ShutWhenRead(r: Receiver, S: seq<Byte>)
    requires ReceiverOk(r, S)
    ensures r.rsn <= |S| && !r.endread
    ensures Shutdown(r).rsn == r.rsn && Shutdown(r).arrived == r.arrived && Shutdown(r).endread
    ensures r.ravail == 0 ==> Shutdown(r).readout == S[..r.rsn]
    ensures HasClose(r.rsegs) ==> CloseSeen(r) && CloseSeen(Shutdown(r))
  {
    hide BytesOf, Volume, Sum, Holds, Aligned, Filled;
    ClosedRead(r, S);
    if HasClose(r.rsegs) {
      var y :| y in r.arrived && y.flags.close && y.End() <= r.rsn;
      assert y in Shutdown(r).arrived;
    }
  }

  lemma ClosedRead(r: Receiver, S: seq<Byte>)
    requires InOrder(r, S) && Balanced(r) && !r.endread
    ensures r.ravail == 0 ==> r.readout == S[..r.rsn]
  {
    BytesVolume(r.rsegs);
    if r.ravail == 0 {
      assert BytesOf(r.rsegs) == [];
    }
  }

  lemma ArrivedCoherent(r: Receiver, sg: Segment, S: seq<Byte>)
    requires ReceiverOk(r, S) && CutFrom(S, sg)
    ensures Coherent(r.(arrived := r.arrived + [sg]), S)
    ensures forall y :: y in r.arrived ==> Holds(r.(arrived := r.arrived + [sg]), y)
  {
    var r1 := r.(arrived := r.arrived + [sg]);
    forall k | 0 <= k < r.rsn ensures Covers(r1.arrived, k) {
      assert Covers(r.arrived, k);
      var y :| y in r.arrived && y.tsn <= k < y.End();
      assert y in r1.arrived;
    }
  }

  lemma FirstConsume(r: Receiver, x: RxSegment, S: seq<Byte>)
    requires Coherent(r, S) && x.Valid() && x.rsn + x.skip == r.rsn && Origin(x) in r.arrived
    requires forall y :: y in r.arrived && y != Origin(x) ==> Holds(r, y)
    ensures Loose(Consume(r, x), S)
  {
    hide Coherent, Holds;
    ConsumeCoherent(r, x, S);
    forall y | y in r.arrived ensures Holds(Consume(r, x), y) {
      ConsumeHolds(r, x, y);
    }
  }
}
