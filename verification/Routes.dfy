/** Node identifiers, routing paths and buckets (test/route/route.cc, test/route/route.h). */
module Routes {

  type NodeId = seq<bv8>

  // ---------- affinity ----------

  /** Bit j of a byte, most significant first. */
  predicate BitOf(x: bv8, j: nat)
    requires j < 8
  {
    x & (0x80 >> j) != 0
  }

  predicate Bit(a: NodeId, i: nat)
    requires i < 8 * |a|
  {
    BitOf(a[i / 8], i % 8)
  }

  function MinLen(a: NodeId, b: NodeId): nat { if |a| <= |b| then |a| else |b| }

  /** k is the number of leading bits a and b share. */
  ghost predicate SharedBits(a: NodeId, b: NodeId, k: nat) {
    && k <= 8 * MinLen(a, b)
    && (forall i :: 0 <= i < k ==> Bit(a, i) == Bit(b, i))
    && (k < 8 * MinLen(a, b) ==> Bit(a, k) != Bit(b, k))
  }

  lemma SharedUnique(a: NodeId, b: NodeId, k: nat, m: nat)
    requires SharedBits(a, b, k) && SharedBits(a, b, m)
    ensures k == m
  {
  }

  lemma XorBit(x: bv8, y: bv8, j: nat)
    requires j < 8
    ensures BitOf(Xor(x, y), j) <==> BitOf(x, j) != BitOf(y, j)
  {
    match j
    case 0 => case 1 => case 2 => case 3 => case 4 => case 5 => case 6 => case 7 =>
  }

  lemma SameByte(x: bv8, y: bv8)
    requires forall j :: 0 <= j < 8 ==> BitOf(x, j) == BitOf(y, j)
    ensures x == y
  {
    assert BitOf(x, 0) == BitOf(y, 0) && BitOf(x, 1) == BitOf(y, 1) && BitOf(x, 2) == BitOf(y, 2) && BitOf(x, 3) == BitOf(y, 3);
    assert BitOf(x, 4) == BitOf(y, 4) && BitOf(x, 5) == BitOf(y, 5) && BitOf(x, 6) == BitOf(y, 6) && BitOf(x, 7) == BitOf(y, 7);
  }

  function Xor(x: bv8, y: bv8): bv8 { x ^ y }

  /** Position of the first set bit of a byte. */
  function FirstBit(x: bv8, j: nat): (k: nat)
    requires j <= 8
    ensures j <= k <= 8
    ensures forall i :: j <= i < k ==> !BitOf(x, i)
    ensures k < 8 ==> BitOf(x, k)
    decreases 8 - j
  {
    if j == 8 || BitOf(x, j) then j else FirstBit(x, j + 1)
  }

  /** affinity() */
  function Affinity(a: NodeId, b: NodeId): nat {
    AffinityFrom(a, b, 0)
  }

  function AffinityFrom(a: NodeId, b: NodeId, i: nat): nat
    decreases MinLen(a, b) - i
  {
    if i >= MinLen(a, b) then 8 * MinLen(a, b)
    else if a[i] == b[i] then AffinityFrom(a, b, i + 1)
    else 8 * i + FirstBit(Xor(a[i], b[i]), 0)
  }

  lemma DifferentByte(x: bv8, y: bv8)
    requires x != y
    ensures FirstBit(Xor(x, y), 0) < 8
    ensures forall j :: 0 <= j < FirstBit(Xor(x, y), 0) ==> BitOf(x, j) == BitOf(y, j)
    ensures BitOf(x, FirstBit(Xor(x, y), 0)) != BitOf(y, FirstBit(Xor(x, y), 0))
  {
    hide BitOf, Xor;
    forall j | 0 <= j < 8 ensures BitOf(Xor(x, y), j) <==> BitOf(x, j) != BitOf(y, j) { XorBit(x, y, j); }
    if FirstBit(Xor(x, y), 0) == 8 { SameByte(x, y); }
  }

  lemma {:induction false} AffinityFromShared(a: NodeId, b: NodeId, i: nat)
    requires i <= MinLen(a, b) && forall k :: 0 <= k < i ==> a[k] == b[k]
    ensures SharedBits(a, b, AffinityFrom(a, b, i))
    decreases MinLen(a, b) - i
  {
    hide BitOf, FirstBit, Xor;
    if i < MinLen(a, b) {
      if a[i] == b[i] {
        AffinityFromShared(a, b, i + 1);
      } else {
        DifferentByte(a[i], b[i]);
      }
    }
  }

  /** affinity() counts the leading bits two identifiers share. */
  lemma AffinityShared(a: NodeId, b: NodeId)
    ensures SharedBits(a, b, Affinity(a, b))
  {
    AffinityFromShared(a, b, 0);
  }

  /** Two identifiers that leave c at the same bit agree with each other beyond it. */
  lemma AffinityGrows(a: NodeId, b: NodeId, c: NodeId)
    requires |a| == |b| == |c| && Affinity(c, a) == Affinity(c, b) < 8 * |c|
    ensures Affinity(a, b) > Affinity(c, a)
  {
    hide BitOf, AffinityFrom;
    AffinityShared(c, a);
    AffinityShared(c, b);
    AffinityShared(a, b);
    var k, m := Affinity(c, a), Affinity(a, b);
    assert Bit(c, k) != Bit(a, k) && Bit(c, k) != Bit(b, k);
  }

  lemma AffinitySymmetric(a: NodeId, b: NodeId)
    ensures Affinity(a, b) == Affinity(b, a)
  {
    AffinityShared(a, b);
    AffinityShared(b, a);
    SharedUnique(a, b, Affinity(a, b), Affinity(b, a));
  }

  lemma {:induction false} AffinityDiffers(a: NodeId, b: NodeId, i: nat)
    requires i <= MinLen(a, b) && |a| == |b| && AffinityFrom(a, b, i) == 8 * |a|
    ensures a[i..] == b[i..]
    decreases |a| - i
  {
    if i < |a| {
      if a[i] == b[i] {
        AffinityDiffers(a, b, i + 1);
        assert a[i..] == [a[i]] + a[i + 1..] && b[i..] == [b[i]] + b[i + 1..];
      } else {
        DifferentByte(a[i], b[i]);
      }
    }
  }

  /** Distinct identifiers of one length differ in some bit. */
  lemma AffinityFull(a: NodeId, b: NodeId)
    requires |a| == |b|
    ensures Affinity(a, b) <= 8 * |a| && (Affinity(a, b) == 8 * |a| ==> a == b)
  {
    AffinityShared(a, b);
    if Affinity(a, b) == 8 * |a| {
      AffinityDiffers(a, b, 0);
      assert a[0..] == a && b[0..] == b;
    }
  }

  /** The two loops of affinity(). */
  method ComputeAffinity(a: NodeId, b: NodeId) returns (k: nat)
    ensures k == Affinity(a, b) && SharedBits(a, b, k)
  {
    hide BitOf, SharedBits, FirstBit, AffinityFrom, Xor;
    AffinityShared(a, b);
    var sz := MinLen(a, b);
    var i := 0;
    while i < sz
      invariant 0 <= i <= sz && AffinityFrom(a, b, i) == Affinity(a, b)
    {
      var x := Xor(a[i], b[i]);
      AffinityStep(a, b, i);
      if x == 0 {
        i := i + 1;
        continue;
      }
      var j := ScanByte(x);
      return i * 8 + j;
    }
    AffinityEnd(a, b, i);
    return sz * 8;
  }

  lemma AffinityStep(a: NodeId, b: NodeId, i: nat)
    requires i < MinLen(a, b)
    ensures Xor(a[i], b[i]) == 0 ==> AffinityFrom(a, b, i) == AffinityFrom(a, b, i + 1)
    ensures Xor(a[i], b[i]) != 0 ==> AffinityFrom(a, b, i) == i * 8 + FirstBit(Xor(a[i], b[i]), 0) && FirstBit(Xor(a[i], b[i]), 0) < 8
  {
    hide FirstBit, BitOf, Xor;
    XorZero(a[i], b[i]);
    if a[i] != b[i] { DifferentByte(a[i], b[i]); }
  }

  lemma AffinityEnd(a: NodeId, b: NodeId, i: nat)
    requires i >= MinLen(a, b)
    ensures AffinityFrom(a, b, i) == MinLen(a, b) * 8
  {
  }

  method ScanByte(x: bv8) returns (j: nat)
    requires FirstBit(x, 0) < 8
    ensures j == FirstBit(x, 0)
  {
    hide BitOf;
    j := 0;
    while !BitOf(x, j)
      invariant 0 <= j < 8 && FirstBit(x, j) == FirstBit(x, 0) < 8
      decreases 8 - j
    {
      j := j + 1;
    }
  }

  lemma XorZero(x: bv8, y: bv8)
    ensures Xor(x, y) == 0 <==> x == y
  {
  }

  // ---------- paths ----------

  datatype Hop = Hop(rid: nat, nid: NodeId)

  datatype Path = Path(start: NodeId, hops: seq<Hop>, weight: real, stamp: int) {
    predicate IsNull() { start == [] }
    function Target(): NodeId { if hops == [] then start else hops[|hops| - 1].nid }

    /** beforeHopId */
    function Node(i: nat): NodeId
      requires i <= |hops|
    {
      if i == 0 then start else hops[i - 1].nid
    }
  }

  const NullPath := Path([], [], 0.0, 0)

  /** looping(): hop i starts where a later hop j ends. */
  predicate Looping(p: Path) {
    exists i, j :: 0 <= i <= j < |p.hops| && p.Node(i) == p.hops[j].nid
  }

  /** No node occurs twice. */
  ghost predicate Simple(p: Path) {
    forall i, j :: 0 <= i < j <= |p.hops| ==> p.Node(i) != p.Node(j)
  }

  lemma LoopFree(p: Path)
    ensures Looping(p) <==> !Simple(p)
  {
    if Looping(p) {
      var i, j :| 0 <= i <= j < |p.hops| && p.Node(i) == p.hops[j].nid;
      assert p.Node(i) == p.Node(j + 1);
    }
    if !Simple(p) {
      var i, j :| 0 <= i < j <= |p.hops| && p.Node(i) == p.Node(j);
      assert p.Node(i) == p.hops[j - 1].nid;
    }
  }

  /** hopsBefore */
  function HopsBefore(p: Path, nid: NodeId): (k: int)
    ensures -1 <= k <= |p.hops|
    ensures k >= 0 ==> p.Node(k) == nid
    ensures k < 0 ==> forall i :: 0 <= i <= |p.hops| ==> p.Node(i) != nid
  {
    HopsFrom(p, nid, 0)
  }

  function HopsFrom(p: Path, nid: NodeId, i: nat): (k: int)
    requires i <= |p.hops|
    ensures k == -1 || (i <= k <= |p.hops| && p.Node(k) == nid)
    ensures k < 0 ==> forall j :: i <= j <= |p.hops| ==> p.Node(j) != nid
    decreases |p.hops| - i
  {
    if p.Node(i) == nid then i else if i == |p.hops| then -1 else HopsFrom(p, nid, i + 1)
  }

  /** The last node of the tail that is also on the head. */
  function JoinAt(p: Path, tail: Path, i: nat): (k: nat)
    requires i <= |tail.hops| && exists j :: 0 <= j <= i && HopsBefore(p, tail.Node(j)) >= 0
    ensures k <= i && HopsBefore(p, tail.Node(k)) >= 0
    ensures forall j :: k < j <= i ==> HopsBefore(p, tail.Node(j)) < 0
  {
    if HopsBefore(p, tail.Node(i)) >= 0 then i else JoinAt(p, tail, i - 1)
  }

  lemma JoinExists(p: Path, tail: Path)
    requires p.Target() == tail.start
    ensures HopsBefore(p, tail.Node(0)) >= 0
  {
    assert p.Node(|p.hops|) == tail.Node(0);
  }

  /** operator+= */
  function Extend(p: Path, tail: Path): Path
    requires p.Target() == tail.start
  {
    JoinExists(p, tail);
    var i := JoinAt(p, tail, |tail.hops|);
    var n := HopsBefore(p, tail.Node(i));
    Path(p.start, p.hops[..n] + tail.hops[i..], p.weight + tail.weight, if p.stamp <= tail.stamp then p.stamp else tail.stamp)
  }

  /** The head runs to node n and the tail goes on from node i. */
  ghost predicate MeetsAt(p: Path, tail: Path, i: nat, n: nat) {
    && p.Target() == tail.start && HopsBefore(p, tail.Node(0)) >= 0
    && i == JoinAt(p, tail, |tail.hops|) && n == HopsBefore(p, tail.Node(i))
  }

  lemma Meeting(p: Path, tail: Path) returns (i: nat, n: nat)
    requires p.Target() == tail.start
    ensures MeetsAt(p, tail, i, n)
  {
    JoinExists(p, tail);
    i := JoinAt(p, tail, |tail.hops|);
    n := HopsBefore(p, tail.Node(i));
  }

  lemma ExtendHops(p: Path, tail: Path, i: nat, n: nat)
    requires MeetsAt(p, tail, i, n)
    ensures p.Target() == tail.start && i <= |tail.hops| && n <= |p.hops| && p.Node(n) == tail.Node(i)
    ensures Extend(p, tail).start == p.start && Extend(p, tail).hops == p.hops[..n] + tail.hops[i..]
    ensures Extend(p, tail).weight == p.weight + tail.weight
    ensures Extend(p, tail).stamp <= p.stamp && Extend(p, tail).stamp <= tail.stamp
    ensures Extend(p, tail).stamp == p.stamp || Extend(p, tail).stamp == tail.stamp
  {
  }

  lemma ExtendNode(p: Path, tail: Path, i: nat, n: nat, k: nat)
    requires MeetsAt(p, tail, i, n) && k <= |Extend(p, tail).hops|
    ensures k <= n ==> n <= |p.hops| && Extend(p, tail).Node(k) == p.Node(k)
    ensures n <= k ==> i + k - n <= |tail.hops| && Extend(p, tail).Node(k) == tail.Node(k - n + i)
  {
    hide Extend, MeetsAt;
    ExtendHops(p, tail, i, n);
    JoinedNode(p, tail, Extend(p, tail), i, n, k);
  }

  lemma JoinedNode(p: Path, tail: Path, q: Path, i: nat, n: nat, k: nat)
    requires i <= |tail.hops| && n <= |p.hops| && p.Node(n) == tail.Node(i)
    requires q.start == p.start && q.hops == p.hops[..n] + tail.hops[i..] && k <= |q.hops|
    ensures k <= n ==> q.Node(k) == p.Node(k)
    ensures n <= k ==> q.Node(k) == tail.Node(k - n + i)
  {
    if k > n { assert q.hops[k - 1] == tail.hops[i..][k - 1 - n]; }
  }

  /** Joining two loop-free paths gives a loop-free path between the outer ends. */
  lemma ExtendSimple(p: Path, tail: Path)
    requires p.Target() == tail.start && Simple(p) && Simple(tail)
    ensures Simple(Extend(p, tail))
    ensures Extend(p, tail).start == p.start && Extend(p, tail).Target() == tail.Target()
  {
    hide Extend, MeetsAt;
    var i, n := Meeting(p, tail);
    var q := Extend(p, tail);
    ExtendHops(p, tail, i, n);
    forall a, b | 0 <= a < b <= |q.hops| ensures q.Node(a) != q.Node(b) {
      ExtendNode(p, tail, i, n, a);
      ExtendNode(p, tail, i, n, b);
      if a <= n && b > n { Absent(p, tail, i, n, b - n + i, a); }
    }
    ExtendNode(p, tail, i, n, |q.hops|);
    assert q.Target() == q.Node(|q.hops|) && tail.Target() == tail.Node(|tail.hops|);
  }

  /** Beyond the meeting point the tail has left the head for good. */
  lemma Absent(p: Path, tail: Path, i: nat, n: nat, j: nat, a: nat)
    requires MeetsAt(p, tail, i, n) && i < j <= |tail.hops| && a <= |p.hops|
    ensures p.Node(a) != tail.Node(j)
  {
    assert HopsBefore(p, tail.Node(j)) < 0;
  }

  // ---------- weights ----------

  type Distance = (NodeId, NodeId) -> real

  /** Total distance of the hops from node i to node j of a path. */
  ghost function Span(d: Distance, p: Path, i: nat, j: nat): real
    requires i <= j <= |p.hops|
    decreases j
  {
    if i == j then 0.0 else Span(d, p, i, j - 1) + d(p.Node(j - 1), p.Node(j))
  }

  ghost function HopWeight(d: Distance, p: Path): real { Span(d, p, 0, |p.hops|) }

  ghost predicate Metric(d: Distance) {
    forall x, y :: d(x, y) >= 0.0 && d(x, y) == d(y, x)
  }

  lemma {:induction false} SpanNonNegative(d: Distance, p: Path, i: nat, j: nat)
    requires Metric(d) && i <= j <= |p.hops|
    ensures Span(d, p, i, j) >= 0.0
    decreases j
  {
    if i < j { SpanNonNegative(d, p, i, j - 1); }
  }

  lemma {:induction false} SpanSplit(d: Distance, p: Path, i: nat, j: nat, k: nat)
    requires i <= j <= k <= |p.hops|
    ensures Span(d, p, i, k) == Span(d, p, i, j) + Span(d, p, j, k)
    decreases k
  {
    if j < k { SpanSplit(d, p, i, j, k - 1); }
  }

  /** n hops of p from node i and of q from node j visit the same nodes. */
  ghost predicate SameNodes(p: Path, i: nat, q: Path, j: nat, n: nat) {
    && i + n <= |p.hops| && j + n <= |q.hops|
    && forall k :: i <= k <= i + n ==> p.Node(k) == q.Node(k - i + j)
  }

  /** Equal nodes give equal spans. */
  lemma {:induction false} SpanSame(d: Distance, p: Path, i: nat, q: Path, j: nat, n: nat)
    requires SameNodes(p, i, q, j, n)
    ensures Span(d, p, i, i + n) == Span(d, q, j, j + n)
    decreases n
  {
    if n > 0 {
      SpanSame(d, p, i, q, j, n - 1);
      assert p.Node(i + n - 1) == q.Node(j + n - 1) && p.Node(i + n) == q.Node(j + n);
    }
  }

  /** Cutting a loop out never makes the hops heavier. */
  lemma ExtendWeight(d: Distance, p: Path, tail: Path)
    requires p.Target() == tail.start && Metric(d)
    ensures HopWeight(d, Extend(p, tail)) <= HopWeight(d, p) + HopWeight(d, tail)
    ensures Extend(p, tail).weight == p.weight + tail.weight
  {
    hide Extend, MeetsAt, Metric, SameNodes;
    var i, n := Meeting(p, tail);
    var q := Extend(p, tail);
    ExtendHops(p, tail, i, n);
    ExtendAlong(p, tail, i, n);
    SpanAlong(d, q, p, tail, i, n);
    SpanSplit(d, p, 0, n, |p.hops|);
    SpanSplit(d, tail, 0, i, |tail.hops|);
    SpanNonNegative(d, p, n, |p.hops|);
    SpanNonNegative(d, tail, 0, i);
  }

  lemma ExtendAlong(p: Path, tail: Path, i: nat, n: nat)
    requires MeetsAt(p, tail, i, n)
    ensures i <= |tail.hops| && n <= |p.hops|
    ensures SameNodes(Extend(p, tail), 0, p, 0, n) && SameNodes(Extend(p, tail), n, tail, i, |tail.hops| - i)
  {
    hide Extend, MeetsAt;
    ExtendHops(p, tail, i, n);
    var q := Extend(p, tail);
    forall k | 0 <= k <= |q.hops|
      ensures k <= n ==> q.Node(k) == p.Node(k)
      ensures n <= k ==> q.Node(k) == tail.Node(k - n + i)
    {
      ExtendNode(p, tail, i, n, k);
    }
  }

  /** The hops of a path that runs along p to node n, then along tail from node i. */
  lemma SpanAlong(d: Distance, q: Path, p: Path, tail: Path, i: nat, n: nat)
    requires i <= |tail.hops| && n <= |p.hops| && |q.hops| == n + |tail.hops| - i
    requires SameNodes(q, 0, p, 0, n) && SameNodes(q, n, tail, i, |tail.hops| - i)
    ensures Span(d, q, 0, |q.hops|) == Span(d, p, 0, n) + Span(d, tail, i, |tail.hops|)
  {
    hide Span, SameNodes;
    SpanSame(d, q, 0, p, 0, n);
    SpanSame(d, q, n, tail, i, |tail.hops| - i);
    SpanSplit(d, q, 0, n, |q.hops|);
  }

  // ---------- reversePath ----------

  function Backward(p: Path, i: nat): seq<Hop>
    requires i <= |p.hops|
  {
    if i == 0 then [] else [Hop(0, p.Node(i - 1))] + Backward(p, i - 1)
  }

  function Reversed(p: Path): Path {
    Path(p.Target(), Backward(p, |p.hops|), p.weight, p.stamp)
  }

  lemma {:induction false} BackwardAt(p: Path, i: nat, k: nat)
    requires i <= |p.hops|
    ensures |Backward(p, i)| == i
    ensures k < i ==> Backward(p, i)[k].nid == p.Node(i - 1 - k)
  {
    if i > 0 { BackwardAt(p, i - 1, if k == 0 then 0 else k - 1); }
  }

  /** Node k of the reversed path is node n-k of the path. */
  lemma ReversedNode(p: Path, k: nat)
    requires k <= |p.hops|
    ensures |Reversed(p).hops| == |p.hops| && Reversed(p).Node(k) == p.Node(|p.hops| - k)
  {
    BackwardAt(p, |p.hops|, if k == 0 then 0 else k - 1);
  }

  lemma {:induction false} ReversedSpan(d: Distance, p: Path, k: nat)
    requires Metric(d) && k <= |p.hops|
    ensures |Reversed(p).hops| == |p.hops|
    ensures Span(d, Reversed(p), 0, k) == Span(d, p, |p.hops| - k, |p.hops|)
  {
    hide Reversed, Metric;
    ReversedNode(p, k);
    if k > 0 {
      ReversedSpan(d, p, k - 1);
      ReversedNode(p, k - 1);
      var n := |p.hops|;
      SpanSplit(d, p, n - k, n - k + 1, n);
      MetricAt(d, p.Node(n - k), p.Node(n - k + 1));
      assert Span(d, p, n - k, n - k) == 0.0;
      assert Span(d, p, n - k, n - k + 1) == d(p.Node(n - k), p.Node(n - k + 1));
    } else {
      assert Span(d, p, |p.hops|, |p.hops|) == 0.0;
    }
  }

  lemma MetricAt(d: Distance, x: NodeId, y: NodeId)
    requires Metric(d)
    ensures d(x, y) == d(y, x)
  {
  }

  /** Reversal swaps the ends and keeps loop-freedom and weight. */
  lemma ReversedPath(d: Distance, p: Path)
    requires Metric(d)
    ensures Reversed(p).start == p.Target() && Reversed(p).Target() == p.start
    ensures HopWeight(d, Reversed(p)) == HopWeight(d, p)
    ensures Reversed(p).weight == p.weight && Reversed(p).stamp == p.stamp
    ensures Simple(p) ==> Simple(Reversed(p))
  {
    hide Metric;
    var q, n := Reversed(p), |p.hops|;
    ReversedNode(p, n);
    assert q.Target() == q.Node(n);
    ReversedSpan(d, p, n);
    if Simple(p) {
      forall i, j | 0 <= i < j <= n ensures q.Node(i) != q.Node(j) {
        ReversedNode(p, i);
        ReversedNode(p, j);
      }
    }
  }

  method ReversePath(p: Path) returns (np: Path)
    ensures np == Reversed(p)
  {
    np := Path(p.Target(), [], 0.0, 0);
    var i := |p.hops|;
    while i > 0
      invariant 0 <= i <= |p.hops| && np.start == p.Target()
      invariant np.hops + Backward(p, i) == Backward(p, |p.hops|)
    {
      i := i - 1;
      np := np.(hops := np.hops + [Hop(0, p.Node(i))]);
    }
    np := np.(weight := p.weight, stamp := p.stamp);
  }

  // ---------- buckets ----------

  const BUCKET_SIZE := 5

  function Position(paths: seq<Path>, w: real): (i: nat)
    ensures i <= |paths|
  {
    if paths == [] || paths[0].weight > w then 0 else 1 + Position(paths[1..], w)
  }

  function IndexOf(paths: seq<Path>, t: NodeId): (i: nat)
    ensures i <= |paths|
    ensures i < |paths| ==> paths[i].Target() == t
    ensures forall j :: 0 <= j < i ==> paths[j].Target() != t
  {
    if paths == [] || paths[0].Target() == t then 0 else 1 + IndexOf(paths[1..], t)
  }

  function Removed(paths: seq<Path>, i: nat): seq<Path> {
    if i < |paths| then paths[..i] + paths[i + 1..] else paths
  }

  /** insert() and what it returns */
  function Offered(paths: seq<Path>, np: Path): (seq<Path>, bool) {
    var k := IndexOf(paths, np.Target());
    if k < |paths| && np.weight >= paths[k].weight then (paths, false)
    else
      var rest := Removed(paths, k);
      var i := Position(rest, np.weight);
      if i >= BUCKET_SIZE then (rest, false)
      else
        var full := rest[..i] + [np] + rest[i..];
        (if |full| > BUCKET_SIZE then full[..BUCKET_SIZE] else full, true)
  }

  /** What a bucket of offers must be: the BUCKET_SIZE lightest targets, each with the lightest path
      ever offered for it, in order. */
  ghost predicate TopPaths(paths: seq<Path>, offers: seq<Path>) {
    && |paths| <= BUCKET_SIZE
    && (forall i, j :: 0 <= i < j < |paths| ==> paths[i].weight <= paths[j].weight)
    && (forall i, j :: 0 <= i < j < |paths| ==> paths[i].Target() != paths[j].Target())
    && (forall i :: 0 <= i < |paths| ==> paths[i] in offers)
    && (forall o :: o in offers ==> Placed(paths, o))
  }

  /** An offer is matched or beaten by the path kept for its target, or lies beyond a full bucket. */
  predicate Placed(paths: seq<Path>, o: Path) {
    || (exists i :: 0 <= i < |paths| && paths[i].Target() == o.Target() && paths[i].weight <= o.weight)
    || (|paths| == BUCKET_SIZE && paths[BUCKET_SIZE - 1].weight <= o.weight
        && forall i :: 0 <= i < |paths| ==> paths[i].Target() != o.Target())
  }

  lemma {:induction false} PositionSplits(paths: seq<Path>, w: real)
    requires forall i, j :: 0 <= i < j < |paths| ==> paths[i].weight <= paths[j].weight
    ensures forall i :: 0 <= i < Position(paths, w) ==> paths[i].weight <= w
    ensures forall i :: Position(paths, w) <= i < |paths| ==> w < paths[i].weight
  {
    if paths != [] && paths[0].weight <= w {
      PositionSplits(paths[1..], w);
      assert forall i :: 0 < i < |paths| ==> paths[i] == paths[1..][i - 1];
    }
  }

  ghost predicate ByWeight(paths: seq<Path>) {
    forall i, j :: 0 <= i < j < |paths| ==> paths[i].weight <= paths[j].weight
  }

  ghost predicate OnePerTarget(paths: seq<Path>) {
    forall i, j :: 0 <= i < j < |paths| ==> paths[i].Target() != paths[j].Target()
  }

  lemma RemovedAt(paths: seq<Path>, k: nat)
    requires k <= |paths|
    ensures |Removed(paths, k)| == if k < |paths| then |paths| - 1 else |paths|
    ensures forall m :: 0 <= m < |Removed(paths, k)| ==> Removed(paths, k)[m] == paths[if m < k then m else m + 1]
  {
    var tail := if k < |paths| then paths[k + 1..] else [];
    assert Removed(paths, k) == paths[..k] + tail;
    forall m | 0 <= m < |Removed(paths, k)| ensures Removed(paths, k)[m] == paths[if m < k then m else m + 1] {
      if m >= k { assert (paths[..k] + tail)[m] == tail[m - k]; }
    }
  }

  lemma RemovedKeeps(paths: seq<Path>, k: nat)
    requires ByWeight(paths) && OnePerTarget(paths) && k <= |paths|
    ensures ByWeight(Removed(paths, k)) && OnePerTarget(Removed(paths, k))
  {
    hide Removed;
    RemovedAt(paths, k);
    var rest := Removed(paths, k);
    forall a, b | 0 <= a < b < |rest| ensures rest[a].weight <= rest[b].weight && rest[a].Target() != rest[b].Target() {
      assert rest[a] == paths[if a < k then a else a + 1] && rest[b] == paths[if b < k then b else b + 1];
    }
  }

  function Inserted(rest: seq<Path>, i: nat, np: Path): seq<Path>
    requires i <= |rest|
  {
    rest[..i] + [np] + rest[i..]
  }

  /** Where each entry goes. */
  lemma InsertedAt(rest: seq<Path>, i: nat, np: Path)
    requires i <= |rest|
    ensures |Inserted(rest, i, np)| == |rest| + 1 && Inserted(rest, i, np)[i] == np
    ensures forall m :: 0 <= m < |rest| ==> rest[m] == Inserted(rest, i, np)[if m < i then m else m + 1]
    ensures forall m :: 0 <= m <= |rest| && m != i ==> Inserted(rest, i, np)[m] == rest[if m < i then m else m - 1]
  {
    var full, head, tail := Inserted(rest, i, np), rest[..i], rest[i..];
    forall m | 0 <= m <= |rest| && m != i ensures full[m] == rest[if m < i then m else m - 1] {
      if m > i { assert full[m] == tail[m - i - 1]; }
    }
    forall m | 0 <= m < |rest| ensures rest[m] == full[if m < i then m else m + 1] {
      if m >= i { assert full[m + 1] == tail[m - i]; }
    }
  }

  lemma InsertedByWeight(rest: seq<Path>, i: nat, np: Path)
    requires ByWeight(rest) && i == Position(rest, np.weight)
    ensures ByWeight(Inserted(rest, i, np))
  {
    hide Position, Inserted;
    PositionSplits(rest, np.weight);
    InsertedAt(rest, i, np);
    var full := Inserted(rest, i, np);
    forall a, b | 0 <= a < b < |full| ensures full[a].weight <= full[b].weight {
      if a != i && b != i { assert rest[if a < i then a else a - 1].weight <= rest[if b < i then b else b - 1].weight; }
    }
  }

  lemma InsertedOnePerTarget(rest: seq<Path>, i: nat, np: Path)
    requires OnePerTarget(rest) && i <= |rest|
    requires forall m :: 0 <= m < |rest| ==> rest[m].Target() != np.Target()
    ensures OnePerTarget(Inserted(rest, i, np))
  {
    hide Inserted;
    InsertedAt(rest, i, np);
    var full := Inserted(rest, i, np);
    forall a, b | 0 <= a < b < |full| ensures full[a].Target() != full[b].Target() {
      if a != i && b != i { assert rest[if a < i then a else a - 1].Target() != rest[if b < i then b else b - 1].Target(); }
    }
  }

  /** The bucket and the path it drops when an insertion overfills it. */
  function Capped(full: seq<Path>): seq<Path> {
    if |full| > BUCKET_SIZE then full[..BUCKET_SIZE] else full
  }

  /** Whatever is in the list before it is capped is placed in the capped one. */
  lemma CappedPlaces(full: seq<Path>, m: nat, o: Path)
    requires ByWeight(full) && OnePerTarget(full) && |full| <= BUCKET_SIZE + 1 && m < |full|
    requires full[m].Target() == o.Target() && full[m].weight <= o.weight
    ensures Placed(Capped(full), o)
  {
    if m < BUCKET_SIZE {
      assert Capped(full)[m] == full[m];
    } else {
      assert full[BUCKET_SIZE - 1].weight <= full[m].weight;
      assert forall i :: 0 <= i < BUCKET_SIZE ==> full[i].Target() != full[m].Target();
    }
  }

  /** An offer that lay beyond a full bucket still does, unless the new path is for its target. */
  lemma BeyondStays(paths: seq<Path>, full: seq<Path>, np: Path, o: Path)
    requires |paths| == BUCKET_SIZE && paths[BUCKET_SIZE - 1].weight <= o.weight
    requires BUCKET_SIZE <= |full| && ByWeight(full) && full[BUCKET_SIZE - 1].weight <= paths[BUCKET_SIZE - 1].weight
    requires forall m :: 0 <= m < |full| ==> full[m].Target() != o.Target()
    ensures Placed(Capped(full), o)
  {
  }

  lemma PlacedCases(paths: seq<Path>, o: Path)
    requires Placed(paths, o)
    ensures (exists i :: 0 <= i < |paths| && paths[i].Target() == o.Target() && paths[i].weight <= o.weight)
         || (|paths| == BUCKET_SIZE && paths[BUCKET_SIZE - 1].weight <= o.weight
             && forall i :: 0 <= i < |paths| ==> paths[i].Target() != o.Target())
  {
  }

  /** What is true of the list that insert() builds before it caps it. */
  ghost predicate Built(paths: seq<Path>, np: Path, k: nat, i: nat, full: seq<Path>) {
    && k <= |paths| && i <= |Removed(paths, k)| && full == Inserted(Removed(paths, k), i, np)
    && ByWeight(full) && OnePerTarget(full)
    && (forall m :: 0 <= m < |paths| && m != k ==> paths[m] in full)
    && (forall m :: 0 <= m < |full| ==> full[m] == np || full[m] in paths)
    && (k < |paths| ==> np.weight < paths[k].weight && np.Target() == paths[k].Target())
  }

  lemma Build(paths: seq<Path>, np: Path, k: nat, i: nat)
    requires ByWeight(paths) && OnePerTarget(paths) && k == IndexOf(paths, np.Target())
    requires k < |paths| ==> np.weight < paths[k].weight
    requires i == Position(Removed(paths, k), np.weight)
    ensures Built(paths, np, k, i, Inserted(Removed(paths, k), i, np))
    ensures Inserted(Removed(paths, k), i, np)[i] == np
  {
    hide Position, IndexOf, ByWeight, OnePerTarget, Inserted, Removed;
    RemovedKeeps(paths, k);
    NotTarget(paths, np.Target(), k);
    InsertedByWeight(Removed(paths, k), i, np);
    InsertedOnePerTarget(Removed(paths, k), i, np);
    InsertedAt(Removed(paths, k), i, np);
    BuildMembers(paths, np, k, i);
  }

  lemma BuildMembers(paths: seq<Path>, np: Path, k: nat, i: nat)
    requires k <= |paths| && i <= |Removed(paths, k)|
    ensures forall m :: 0 <= m < |paths| && m != k ==> paths[m] in Inserted(Removed(paths, k), i, np)
    ensures forall m :: 0 <= m < |Inserted(Removed(paths, k), i, np)| ==>
              Inserted(Removed(paths, k), i, np)[m] == np || Inserted(Removed(paths, k), i, np)[m] in paths
  {
    hide Inserted;
    var rest := Removed(paths, k);
    InsertedAt(rest, i, np);
    var full := Inserted(rest, i, np);
    forall m | 0 <= m < |paths| && m != k ensures paths[m] in full {
      var r := if m < k then m else m - 1;
      assert full[if r < i then r else r + 1] == rest[r] == paths[m];
    }
    forall m | 0 <= m < |full| && m != i ensures full[m] in paths {
      var r := if m < i then m else m - 1;
      assert full[m] == rest[r] == paths[if r < k || k == |paths| then r else r + 1];
    }
  }

  lemma NotTarget(paths: seq<Path>, t: NodeId, k: nat)
    requires k == IndexOf(paths, t) && OnePerTarget(paths)
    ensures forall m :: 0 <= m < |Removed(paths, k)| ==> Removed(paths, k)[m].Target() != t
  {
    var rest := Removed(paths, k);
    assert forall m :: 0 <= m < |rest| ==> rest[m] == paths[if m < k || k == |paths| then m else m + 1];
  }

  /** The BUCKET_SIZE-th weight does not grow. */
  lemma BuiltHorizon(paths: seq<Path>, np: Path, k: nat, i: nat, full: seq<Path>)
    requires Built(paths, np, k, i, full) && ByWeight(paths) && |paths| == BUCKET_SIZE && i < BUCKET_SIZE
    requires i == Position(Removed(paths, k), np.weight)
    ensures |full| >= BUCKET_SIZE && full[BUCKET_SIZE - 1].weight <= paths[BUCKET_SIZE - 1].weight
    ensures k == BUCKET_SIZE ==> np.weight < paths[BUCKET_SIZE - 1].weight
  {
    hide Position, OnePerTarget;
    var rest := Removed(paths, k);
    if k < BUCKET_SIZE {
      var last := BUCKET_SIZE - 1;
      if i == last {
        assert full[last] == np;
      } else {
        assert full[last] == rest[last - 1];
        assert rest[last - 1] == paths[if last - 1 < k then last - 1 else last];
      }
    } else {
      RestSorted(paths, np);
      assert full[BUCKET_SIZE - 1] == if i == BUCKET_SIZE - 1 then np else rest[BUCKET_SIZE - 2];
    }
  }

  lemma RestSorted(paths: seq<Path>, np: Path)
    requires ByWeight(paths)
    ensures Position(paths, np.weight) < |paths| ==> np.weight < paths[|paths| - 1].weight
  {
    PositionSplits(paths, np.weight);
  }

  lemma InsertPlaces(paths: seq<Path>, np: Path, k: nat, i: nat, full: seq<Path>, o: Path)
    requires Built(paths, np, k, i, full) && ByWeight(paths) && |paths| <= BUCKET_SIZE && i < BUCKET_SIZE
    requires i == Position(Removed(paths, k), np.weight) && full[i] == np && Placed(paths, o)
    ensures Placed(Capped(full), o)
  {
    hide Position, Placed, ByWeight, OnePerTarget;
    PlacedCases(paths, o);
    if m :| 0 <= m < |paths| && paths[m].Target() == o.Target() && paths[m].weight <= o.weight {
      if m == k {
        CappedPlaces(full, i, o);
      } else {
        var j :| 0 <= j < |full| && full[j] == paths[m];
        CappedPlaces(full, j, o);
      }
    } else {
      BuiltHorizon(paths, np, k, i, full);
      if np.Target() == o.Target() {
        CappedPlaces(full, i, o);
      } else {
        BeyondStays(paths, full, np, o);
      }
    }
  }

  /** Offering one more path keeps the bucket the lightest targets of everything offered. */
  lemma OfferKeeps(paths: seq<Path>, offers: seq<Path>, np: Path)
    requires TopPaths(paths, offers)
    ensures TopPaths(Offered(paths, np).0, offers + [np])
  {
    hide Position, IndexOf, Placed, ByWeight, OnePerTarget, Inserted, Removed, TopPaths, Built;
    TopParts(paths, offers);
    var k := IndexOf(paths, np.Target());
    if k < |paths| && np.weight >= paths[k].weight {
      KeptPlaced(paths, k, np);
      TopAgain(paths, offers, np);
    } else {
      var i := Position(Removed(paths, k), np.weight);
      Build(paths, np, k, i);
      var full := Inserted(Removed(paths, k), i, np);
      OfferedIs(paths, np, k, i);
      if i >= BUCKET_SIZE {
        RejectedPlaced(paths, k, np);
        TopAgain(paths, offers, np);
      } else {
        BuiltParts(paths, np, k, i, full);
        forall o | o in offers ensures Placed(Capped(full), o) { InsertPlaces(paths, np, k, i, full, o); }
        CappedPlaces(full, i, np);
        CappedTop(paths, offers, np, full);
      }
    }
  }

  lemma TopParts(paths: seq<Path>, offers: seq<Path>)
    requires TopPaths(paths, offers)
    ensures |paths| <= BUCKET_SIZE && ByWeight(paths) && OnePerTarget(paths)
    ensures forall i :: 0 <= i < |paths| ==> paths[i] in offers
    ensures forall o :: o in offers ==> Placed(paths, o)
  {
    hide Placed;
  }

  lemma TopAgain(paths: seq<Path>, offers: seq<Path>, np: Path)
    requires TopPaths(paths, offers) && Placed(paths, np)
    ensures TopPaths(paths, offers + [np])
  {
    hide Placed;
  }

  lemma OfferedIs(paths: seq<Path>, np: Path, k: nat, i: nat)
    requires k == IndexOf(paths, np.Target()) && !(k < |paths| && np.weight >= paths[k].weight)
    requires i == Position(Removed(paths, k), np.weight)
    ensures i >= BUCKET_SIZE ==> Offered(paths, np) == (Removed(paths, k), false)
    ensures i < BUCKET_SIZE ==> Offered(paths, np) == (Capped(Inserted(Removed(paths, k), i, np)), true)
  {
  }

  lemma BuiltParts(paths: seq<Path>, np: Path, k: nat, i: nat, full: seq<Path>)
    requires Built(paths, np, k, i, full) && |paths| <= BUCKET_SIZE
    ensures ByWeight(full) && OnePerTarget(full) && |full| <= BUCKET_SIZE + 1 && full != []
    ensures forall m :: 0 <= m < |full| ==> full[m] == np || full[m] in paths
  {
  }

  lemma CappedTop(paths: seq<Path>, offers: seq<Path>, np: Path, full: seq<Path>)
    requires ByWeight(full) && OnePerTarget(full)
    requires forall m :: 0 <= m < |full| ==> full[m] == np || full[m] in paths
    requires forall i :: 0 <= i < |paths| ==> paths[i] in offers
    requires (forall o :: o in offers ==> Placed(Capped(full), o)) && Placed(Capped(full), np)
    ensures TopPaths(Capped(full), offers + [np])
  {
    hide Placed;
    var top := Capped(full);
    assert forall m :: 0 <= m < |top| ==> top[m] == full[m];
  }

  lemma KeptPlaced(paths: seq<Path>, k: nat, np: Path)
    requires k < |paths| && paths[k].Target() == np.Target() && np.weight >= paths[k].weight
    ensures Placed(paths, np)
  {
  }

  lemma RejectedPlaced(paths: seq<Path>, k: nat, np: Path)
    requires ByWeight(paths) && |paths| <= BUCKET_SIZE && k == IndexOf(paths, np.Target())
    requires Position(Removed(paths, k), np.weight) >= BUCKET_SIZE
    ensures Removed(paths, k) == paths && Placed(paths, np)
  {
    PositionSplits(paths, np.weight);
  }

  /** The bucket after a list of offers. */
  function Collected(offers: seq<Path>): seq<Path> {
    if offers == [] then [] else Offered(Collected(offers[..|offers| - 1]), offers[|offers| - 1]).0
  }

  /** A bucket is always the lightest targets among everything offered so far. */
  lemma {:induction false} BucketIsTop(offers: seq<Path>)
    ensures TopPaths(Collected(offers), offers)
  {
    hide TopPaths, Offered;
    if offers == [] {
      NoOffers();
    } else {
      var n := |offers| - 1;
      BucketIsTop(offers[..n]);
      OfferKeeps(Collected(offers[..n]), offers[..n], offers[n]);
      assert offers == offers[..n] + [offers[n]];
    }
  }

  lemma NoOffers()
    ensures TopPaths([], [])
  {
  }

  /** insert() returns true exactly when it changes the bucket, which then holds the new path. */
  lemma OfferAnswer(paths: seq<Path>, offers: seq<Path>, np: Path)
    requires TopPaths(paths, offers)
    ensures Offered(paths, np).1 <==> Offered(paths, np).0 != paths
    ensures Offered(paths, np).1 ==> np in Offered(paths, np).0
  {
    hide Position, IndexOf, Placed, ByWeight, OnePerTarget, Inserted, Removed, TopPaths, Built;
    TopParts(paths, offers);
    var k := IndexOf(paths, np.Target());
    if !(k < |paths| && np.weight >= paths[k].weight) {
      var i := Position(Removed(paths, k), np.weight);
      Build(paths, np, k, i);
      OfferedIs(paths, np, k, i);
      if i >= BUCKET_SIZE {
        RejectedPlaced(paths, k, np);
      } else {
        var full := Inserted(Removed(paths, k), i, np);
        assert Capped(full)[i] == np;
        NewPath(paths, np, k);
      }
    }
  }

  /** A newcomer that is not lighter than the last of a full bucket is turned away. */
  lemma TieLoses(paths: seq<Path>, offers: seq<Path>, np: Path)
    requires TopPaths(paths, offers) && |paths| == BUCKET_SIZE && np.weight >= paths[BUCKET_SIZE - 1].weight
    requires forall i :: 0 <= i < |paths| ==> paths[i].Target() != np.Target()
    ensures Offered(paths, np) == (paths, false)
  {
    hide Placed, Position, IndexOf, Inserted;
    PositionSplits(paths, np.weight);
  }

  lemma NewPath(paths: seq<Path>, np: Path, k: nat)
    requires k == IndexOf(paths, np.Target()) && OnePerTarget(paths) && (k < |paths| ==> np.weight < paths[k].weight)
    ensures np !in paths
  {
    if k < |paths| {
      forall j | 0 <= j < |paths| ensures paths[j] != np {
        if j != k { assert paths[if j < k then j else k].Target() != paths[if j < k then k else j].Target(); }
      }
    }
  }

  /** A full bucket stays full and its horizon never increases. */
  lemma HorizonFalls(paths: seq<Path>, offers: seq<Path>, np: Path)
    requires TopPaths(paths, offers) && |paths| == BUCKET_SIZE
    ensures |Offered(paths, np).0| == BUCKET_SIZE
    ensures Offered(paths, np).0[BUCKET_SIZE - 1].weight <= paths[BUCKET_SIZE - 1].weight
  {
    hide Position, IndexOf, Placed;
    var k := IndexOf(paths, np.Target());
    if !(k < |paths| && np.weight >= paths[k].weight) {
      var i := Position(Removed(paths, k), np.weight);
      Build(paths, np, k, i);
      if i < BUCKET_SIZE {
        BuiltHorizon(paths, np, k, i, Inserted(Removed(paths, k), i, np));
      } else {
        RejectedPlaced(paths, k, np);
      }
    }
  }

  class Bucket {
    var paths: seq<Path>

    constructor ()
      ensures paths == []
    {
      paths := [];
    }

    /** insert() */
    method Insert(np: Path) returns (accepted: bool)
      modifies this
      ensures (paths, accepted) == Offered(old(paths), np)
    {
      hide Position, IndexOf;
      var t := np.Target();
      var i := FindTarget(t);
      if i < |paths| {
        if np.weight >= paths[i].weight { return false; }
        paths := paths[..i] + paths[i + 1..];
      }
      i := FindPlace(np.weight);
      if i >= BUCKET_SIZE { return false; }
      paths := paths[..i] + [np] + paths[i..];
      ghost var full := paths;
      while |paths| > BUCKET_SIZE
        invariant |paths| <= |full| && paths == full[..|paths|] && (|full| > BUCKET_SIZE ==> |paths| >= BUCKET_SIZE)
        invariant |full| <= BUCKET_SIZE ==> paths == full
      {
        paths := paths[..|paths| - 1];
      }
      return true;
    }

    method FindTarget(t: NodeId) returns (i: nat)
      ensures i == IndexOf(paths, t)
    {
      i := 0;
      while i < |paths| && paths[i].Target() != t
        invariant 0 <= i <= |paths| && IndexOf(paths, t) == i + IndexOf(paths[i..], t)
      {
        i := i + 1;
      }
    }

    method FindPlace(w: real) returns (i: nat)
      ensures i == Position(paths, w)
    {
      i := 0;
      while i < |paths| && paths[i].weight <= w
        invariant 0 <= i <= |paths| && Position(paths, w) == i + Position(paths[i..], w)
      {
        i := i + 1;
      }
    }
  }
}
