/** Routing by affinity (test/route/route.cc: nearestNeighborPath; test/route/main.cc: squeezePath):
    two ends move toward each other through their nearest neighbours until they meet. */
module Squeeze {
  import opened Routes

  /** Every node's buckets, indexed by affinity. */
  type Network = map<NodeId, seq<seq<Path>>>

  ghost predicate GoodPath(d: Distance, p: Path) {
    Simple(p) && HopWeight(d, p) <= p.weight
  }

  /** A bucket path of node x at affinity k. */
  ghost predicate Filed(d: Distance, net: Network, x: NodeId, k: nat, p: Path) {
    p.start == x && p.Target() in net && Affinity(x, p.Target()) == k && GoodPath(d, p)
  }

  /** Identifiers of one length, and buckets filled by insertPath with loop-free paths. */
  ghost predicate NetworkOk(d: Distance, net: Network, len: nat) {
    && Metric(d) && len > 0
    && (forall x :: x in net ==> |x| == len)
    && (forall x, k, i :: x in net && 0 <= k < |net[x]| && 0 <= i < |net[x][k]| ==> Filed(d, net, x, k, net[x][k][i]))
  }

  /** A loop-free path from x to y whose recorded weight covers its hops. */
  ghost predicate Connects(d: Distance, p: Path, x: NodeId, y: NodeId) {
    p.start == x && p.Target() == y && GoodPath(d, p)
  }

  /** p beats q: higher affinity with id, or the same over a lighter path. */
  predicate Closer(id: NodeId, p: Path, q: Path) {
    || Affinity(id, q.Target()) < Affinity(id, p.Target())
    || (Affinity(id, q.Target()) == Affinity(id, p.Target()) && p.weight < q.weight)
  }

  /** p is at least as near to id as q. */
  predicate Nearer(id: NodeId, p: Path, q: Path) {
    !Closer(id, q, p)
  }

  lemma NearerSelf(id: NodeId, p: Path)
    ensures Nearer(id, p, p)
  {
  }

  lemma NearerMeans(id: NodeId, p: Path, q: Path)
    requires Nearer(id, p, q)
    ensures Affinity(id, q.Target()) <= Affinity(id, p.Target())
    ensures Affinity(id, q.Target()) == Affinity(id, p.Target()) ==> p.weight <= q.weight
  {
    hide Affinity;
  }

  lemma NearerTrans(id: NodeId, p: Path, q: Path, r: Path)
    requires Nearer(id, p, q) && Nearer(id, q, r)
    ensures Nearer(id, p, r)
  {
  }

  /** The first of the nearest among the first i paths. */
  function Best(id: NodeId, b: seq<Path>, i: nat): (k: nat)
    requires 0 < i <= |b|
    ensures k < i
  {
    if i == 1 then 0
    else
      var k := Best(id, b, i - 1);
      if Closer(id, b[i - 1], b[k]) then i - 1 else k
  }

  lemma BestNext(id: NodeId, b: seq<Path>, i: nat)
    requires i < |b|
    ensures Best(id, b, i + 1) == if i > 0 && !Closer(id, b[i], b[Best(id, b, i)]) then Best(id, b, i) else i
  {
    hide Closer;
  }

  lemma {:induction false} BestNearest(id: NodeId, b: seq<Path>, i: nat, j: nat)
    requires 0 < i <= |b| && j < i
    ensures Nearer(id, b[Best(id, b, i)], b[j])
    decreases i
  {
    hide Affinity;
    if i == 1 {
      NearerSelf(id, b[0]);
    } else {
      var k := Best(id, b, i - 1);
      if j < i - 1 { BestNearest(id, b, i - 1, j); }
      if Closer(id, b[i - 1], b[k]) {
        NearerSelf(id, b[i - 1]);
        if j < i - 1 {
          assert Nearer(id, b[i - 1], b[k]);
          NearerTrans(id, b[i - 1], b[k], b[j]);
        }
      }
    }
  }

  /** The neighbour of x nearest to id, or the null path when the bucket is empty. */
  function Nearest(net: Network, x: NodeId, id: NodeId): Path
    requires x in net
  {
    if Affinity(x, id) >= |net[x]| || net[x][Affinity(x, id)] == [] then NullPath
    else net[x][Affinity(x, id)][Best(id, net[x][Affinity(x, id)], |net[x][Affinity(x, id)]|)]
  }

  /** The neighbour chosen is nearer to the goal than x, and nothing in its bucket is nearer. */
  lemma NearestOk(net: Network, x: NodeId, id: NodeId, d: Distance, len: nat)
    requires NetworkOk(d, net, len) && x in net && id in net && x != id
    ensures Nearest(net, x, id).IsNull() <==> Affinity(x, id) >= |net[x]| || net[x][Affinity(x, id)] == []
    ensures !Nearest(net, x, id).IsNull() ==>
      && Connects(d, Nearest(net, x, id), x, Nearest(net, x, id).Target()) && Nearest(net, x, id).Target() in net
      && Affinity(Nearest(net, x, id).Target(), id) > Affinity(x, id)
      && (forall q :: q in net[x][Affinity(x, id)] ==>
            && Affinity(id, q.Target()) <= Affinity(id, Nearest(net, x, id).Target())
            && (Affinity(id, q.Target()) == Affinity(id, Nearest(net, x, id).Target()) ==> Nearest(net, x, id).weight <= q.weight))
  {
    hide Affinity, HopWeight, Simple, Closer, Best;
    AffinityFull(x, id);
    var aff := Affinity(x, id);
    if aff < |net[x]| && net[x][aff] != [] {
      var b := net[x][aff];
      var p := b[Best(id, b, |b|)];
      assert Filed(d, net, x, aff, p);
      AffinityGrows(id, p.Target(), x);
      AffinitySymmetric(id, p.Target());
      forall q | q in b
        ensures Affinity(id, q.Target()) <= Affinity(id, p.Target())
        ensures Affinity(id, q.Target()) == Affinity(id, p.Target()) ==> p.weight <= q.weight
      {
        var j :| 0 <= j < |b| && b[j] == q;
        BestNearest(id, b, |b|, j);
        NearerMeans(id, p, q);
      }
    }
  }

  /** nearestNeighborPath() */
  method NearestNeighborPath(net: Network, x: NodeId, id: NodeId, ghost d: Distance, ghost len: nat) returns (p: Path)
    requires NetworkOk(d, net, len) && x in net && id in net && x != id
    ensures p == Nearest(net, x, id)
    ensures p.IsNull() <==> Affinity(x, id) >= |net[x]| || net[x][Affinity(x, id)] == []
    ensures !p.IsNull() ==>
      && Connects(d, p, x, p.Target()) && p.Target() in net
      && Affinity(p.Target(), id) > Affinity(x, id)
      && (forall q :: q in net[x][Affinity(x, id)] ==>
            && Affinity(id, q.Target()) <= Affinity(id, p.Target())
            && (Affinity(id, q.Target()) == Affinity(id, p.Target()) ==> p.weight <= q.weight))
  {
    hide Affinity, Nearer, Connects, Best, NetworkOk;
    NearestOk(net, x, id, d, len);
    var aff := Affinity(x, id);
    if aff >= |net[x]| { return NullPath; }
    var b := net[x][aff];
    if b == [] { return NullPath; }
    AllBeyond(net, x, id, d, len);
    var best := PickNearest(b, id, aff);
    p := b[best];
  }

  /** What the assertion in the loop says of the whole bucket. */
  lemma AllBeyond(net: Network, x: NodeId, id: NodeId, d: Distance, len: nat)
    requires NetworkOk(d, net, len) && x in net && id in net && x != id && Affinity(x, id) < |net[x]|
    ensures forall i :: 0 <= i < |net[x][Affinity(x, id)]| ==> Affinity(id, net[x][Affinity(x, id)][i].Target()) > Affinity(x, id)
  {
    hide Affinity, GoodPath;
    AffinityFull(x, id);
    var b := net[x][Affinity(x, id)];
    forall i | 0 <= i < |b| ensures Affinity(id, b[i].Target()) > Affinity(x, id) {
      assert Filed(d, net, x, Affinity(x, id), b[i]);
      AffinityGrows(id, b[i].Target(), x);
    }
  }

  /** The loop of nearestNeighborPath(). */
  method PickNearest(b: seq<Path>, id: NodeId, aff: nat) returns (best: nat)
    requires b != [] && forall i :: 0 <= i < |b| ==> Affinity(id, b[i].Target()) > aff
    ensures best == Best(id, b, |b|)
  {
    hide Affinity, Best;
    var maxi, maxaff, maxdist, i := -1, aff, 0.0, 0;
    while i < |b|
      invariant 0 <= i <= |b| && -1 <= maxi < i
      invariant i == 0 ==> maxaff == aff
      invariant i > 0 ==> maxi == Best(id, b, i) && maxaff == Affinity(id, b[maxi].Target()) && maxdist == b[maxi].weight
    {
      BestNext(id, b, i);
      var naff := Affinity(id, b[i].Target());
      assert naff > aff;   // the assertion of the source
      if naff > maxaff || (naff == maxaff && b[i].weight < maxdist) {
        maxi, maxaff, maxdist := i, naff, b[i].weight;
      }
      i := i + 1;
    }
    best := maxi;
  }

  lemma ExtendConnects(d: Distance, p: Path, q: Path, x: NodeId, y: NodeId, z: NodeId)
    requires Metric(d) && Connects(d, p, x, y) && Connects(d, q, y, z)
    ensures Connects(d, Extend(p, q), x, z)
  {
    hide Extend, Simple, HopWeight, Metric;
    ExtendSimple(p, q);
    ExtendWeight(d, p, q);
  }

  lemma ReversedConnects(d: Distance, p: Path, x: NodeId, y: NodeId)
    requires Metric(d) && Connects(d, p, x, y)
    ensures Connects(d, Reversed(p), y, x)
  {
    hide Simple, HopWeight, Metric;
    ReversedPath(d, p);
  }

  lemma EmptyConnects(d: Distance, x: NodeId)
    ensures Connects(d, Path(x, [], 0.0, 0), x, x)
  {
  }

  // ---------- when the search gives up ----------

  /** Moving the two ends toward each other comes to an end without neighbours before they meet. */
  ghost predicate Stuck(d: Distance, net: Network, len: nat, hn: NodeId, tn: NodeId)
    requires NetworkOk(d, net, len) && hn in net && tn in net
    decreases 8 * len - Affinity(hn, tn)
  {
    hn != tn &&
    (var hnp, tnp := Nearest(net, hn, tn), Nearest(net, tn, hn);
     StepNearer(d, net, len, hn, tn);
     || hnp.IsNull() || tnp.IsNull()
     || if hnp.weight <= tnp.weight then Stuck(d, net, len, hnp.Target(), tn) else Stuck(d, net, len, hn, tnp.Target()))
  }

  /** Either end's neighbour brings the ends nearer to each other. */
  lemma StepNearer(d: Distance, net: Network, len: nat, hn: NodeId, tn: NodeId)
    requires NetworkOk(d, net, len) && hn in net && tn in net && hn != tn
    ensures !Nearest(net, hn, tn).IsNull() ==>
      Nearest(net, hn, tn).Target() in net && Affinity(hn, tn) < Affinity(Nearest(net, hn, tn).Target(), tn) <= 8 * len
    ensures !Nearest(net, tn, hn).IsNull() ==>
      Nearest(net, tn, hn).Target() in net && Affinity(hn, tn) < Affinity(hn, Nearest(net, tn, hn).Target()) <= 8 * len
  {
    hide Affinity, Nearest, Connects, Nearer;
    NearestOk(net, hn, tn, d, len);
    NearestOk(net, tn, hn, d, len);
    AffinitySymmetric(tn, hn);
    if !Nearest(net, hn, tn).IsNull() { AffinityFull(Nearest(net, hn, tn).Target(), tn); }
    if !Nearest(net, tn, hn).IsNull() {
      AffinitySymmetric(Nearest(net, tn, hn).Target(), hn);
      AffinityFull(hn, Nearest(net, tn, hn).Target());
    }
  }

  /** squeezePath finds nothing: a neighbour of one of the ends is missing, or nothing is found from
      the head's neighbour on.  What the tail's neighbour offers does not come into it. */
  ghost predicate GivesUp(d: Distance, net: Network, len: nat, origid: NodeId, targid: NodeId, prerecurse: int)
    requires NetworkOk(d, net, len) && origid in net && targid in net
    decreases if prerecurse > 0 then prerecurse else 0
  {
    if origid == targid || prerecurse <= 0 then Stuck(d, net, len, origid, targid)
    else
      StepNearer(d, net, len, origid, targid);
      || Nearest(net, origid, targid).IsNull() || Nearest(net, targid, origid).IsNull()
      || GivesUp(d, net, len, Nearest(net, origid, targid).Target(), targid, prerecurse - 1)
  }

  lemma ConnectsReal(d: Distance, net: Network, len: nat, p: Path, x: NodeId, y: NodeId)
    requires NetworkOk(d, net, len) && x in net && Connects(d, p, x, y)
    ensures !p.IsNull() && p.weight >= 0.0
  {
    SpanNonNegative(d, p, 0, |p.hops|);
  }

  lemma ConnectsEnds(d: Distance, p: Path, x: NodeId, y: NodeId)
    requires Connects(d, p, x, y)
    ensures p.start == x && p.Target() == y
  {
  }

  // ---------- what the search returns ----------

  /** The two ends have come to hn and tn along head and tail. */
  ghost predicate Between(d: Distance, net: Network, len: nat, hn: NodeId, tn: NodeId, head: Path, tail: Path) {
    && NetworkOk(d, net, len) && hn in net && tn in net && head.start in net
    && Connects(d, head, head.start, hn) && Connects(d, tail, tn, tail.Target())
  }

  /** One hop of the head ... */
  lemma HeadStep(d: Distance, net: Network, len: nat, hn: NodeId, tn: NodeId, head: Path, tail: Path)
    requires Between(d, net, len, hn, tn, head, tail) && hn != tn && !Nearest(net, hn, tn).IsNull()
    ensures head.Target() == Nearest(net, hn, tn).start
    ensures Between(d, net, len, Nearest(net, hn, tn).Target(), tn, Extend(head, Nearest(net, hn, tn)), tail)
    ensures Extend(head, Nearest(net, hn, tn)).start == head.start
  {
    hide Affinity, Nearest, Nearer, Extend, Connects;
    NearestOk(net, hn, tn, d, len);
    var hnp := Nearest(net, hn, tn);
    ConnectsEnds(d, head, head.start, hn);
    ConnectsEnds(d, hnp, hn, hnp.Target());
    ExtendConnects(d, head, hnp, head.start, hn, hnp.Target());
    ConnectsEnds(d, Extend(head, hnp), head.start, hnp.Target());
  }

  /** ... and one of the tail. */
  lemma TailStep(d: Distance, net: Network, len: nat, hn: NodeId, tn: NodeId, head: Path, tail: Path)
    requires Between(d, net, len, hn, tn, head, tail) && hn != tn && !Nearest(net, tn, hn).IsNull()
    ensures Reversed(Nearest(net, tn, hn)).Target() == tail.start
    ensures Between(d, net, len, hn, Nearest(net, tn, hn).Target(), head, Extend(Reversed(Nearest(net, tn, hn)), tail))
    ensures Extend(Reversed(Nearest(net, tn, hn)), tail).Target() == tail.Target()
  {
    hide Affinity, Nearest, Nearer, Extend, Connects, Reversed;
    NearestOk(net, tn, hn, d, len);
    var tnp := Nearest(net, tn, hn);
    ReversedConnects(d, tnp, tn, tnp.Target());
    ConnectsEnds(d, Reversed(tnp), tnp.Target(), tn);
    ConnectsEnds(d, tail, tn, tail.Target());
    ExtendConnects(d, Reversed(tnp), tail, tnp.Target(), tn, tail.Target());
    ConnectsEnds(d, Extend(Reversed(tnp), tail), tnp.Target(), tail.Target());
  }

  lemma Joined(d: Distance, net: Network, len: nat, hn: NodeId, head: Path, tail: Path)
    requires Between(d, net, len, hn, hn, head, tail)
    ensures head.Target() == tail.start
    ensures Connects(d, Extend(head, tail), head.start, tail.Target()) && !Extend(head, tail).IsNull()
  {
    hide Connects, Extend;
    ConnectsEnds(d, head, head.start, hn);
    ConnectsEnds(d, tail, hn, tail.Target());
    ExtendConnects(d, head, tail, head.start, hn, tail.Target());
    ConnectsReal(d, net, len, Extend(head, tail), head.start, tail.Target());
  }

  /** The end whose next hop is lighter moves, until the two meet. */
  ghost function Met(d: Distance, net: Network, len: nat, hn: NodeId, tn: NodeId, head: Path, tail: Path): (p: Path)
    requires Between(d, net, len, hn, tn, head, tail)
    decreases 8 * len - Affinity(hn, tn)
  {
    if hn == tn then
      Joined(d, net, len, hn, head, tail);
      Extend(head, tail)
    else
      var hnp, tnp := Nearest(net, hn, tn), Nearest(net, tn, hn);
      StepNearer(d, net, len, hn, tn);
      if hnp.IsNull() || tnp.IsNull() then NullPath
      else if hnp.weight <= tnp.weight then
        HeadStep(d, net, len, hn, tn, head, tail);
        Met(d, net, len, hnp.Target(), tn, Extend(head, hnp), tail)
      else
        TailStep(d, net, len, hn, tn, head, tail);
        Met(d, net, len, hn, tnp.Target(), head, Extend(Reversed(tnp), tail))
  }

  lemma {:induction false} MetOk(d: Distance, net: Network, len: nat, hn: NodeId, tn: NodeId, head: Path, tail: Path)
    requires Between(d, net, len, hn, tn, head, tail)
    ensures Met(d, net, len, hn, tn, head, tail).IsNull() <==> Stuck(d, net, len, hn, tn)
    ensures Stuck(d, net, len, hn, tn) ==> Met(d, net, len, hn, tn, head, tail) == NullPath
    ensures !Stuck(d, net, len, hn, tn) ==> Connects(d, Met(d, net, len, hn, tn, head, tail), head.start, tail.Target())
    decreases 8 * len - Affinity(hn, tn)
  {
    hide Affinity, Nearest, Between, Connects, Extend, Reversed, NetworkOk;
    BetweenParts(d, net, len, hn, tn, head, tail);
    if hn == tn {
      Joined(d, net, len, hn, head, tail);
    } else {
      var hnp, tnp := Nearest(net, hn, tn), Nearest(net, tn, hn);
      StepNearer(d, net, len, hn, tn);
      if !hnp.IsNull() && !tnp.IsNull() {
        if hnp.weight <= tnp.weight {
          HeadStep(d, net, len, hn, tn, head, tail);
          MetOk(d, net, len, hnp.Target(), tn, Extend(head, hnp), tail);
        } else {
          TailStep(d, net, len, hn, tn, head, tail);
          MetOk(d, net, len, hn, tnp.Target(), head, Extend(Reversed(tnp), tail));
        }
      }
    }
  }

  lemma BetweenParts(d: Distance, net: Network, len: nat, hn: NodeId, tn: NodeId, head: Path, tail: Path)
    requires Between(d, net, len, hn, tn, head, tail)
    ensures NetworkOk(d, net, len) && hn in net && tn in net
  {
  }

  function Trivial(x: NodeId): Path { Path(x, [], 0.0, 0) }

  lemma StartBetween(d: Distance, net: Network, len: nat, o: NodeId, t: NodeId)
    requires NetworkOk(d, net, len) && o in net && t in net
    ensures Between(d, net, len, o, t, Trivial(o), Trivial(t))
  {
    EmptyConnects(d, o);
    EmptyConnects(d, t);
  }

  /** Going on from the head's neighbour; null when nothing is found from there. */
  function HeadCandidate(net: Network, o: NodeId, t: NodeId, rest: Path): Path
    requires o in net
  {
    if rest.IsNull() || Nearest(net, o, t).Target() != rest.start then NullPath else Extend(Nearest(net, o, t), rest)
  }

  /** Coming from the tail's neighbour; null when nothing is found up to there. */
  function TailCandidate(net: Network, o: NodeId, t: NodeId, rest: Path): Path
    requires t in net
  {
    var back := Reversed(Nearest(net, t, o));
    if rest.IsNull() || rest.Target() != back.start then NullPath else Extend(rest, back)
  }

  /** What squeezePath returns. */
  ghost function Squeezed(d: Distance, net: Network, len: nat, o: NodeId, t: NodeId, pre: int): Path
    requires NetworkOk(d, net, len) && o in net && t in net
    decreases if pre > 0 then pre else 0
  {
    if o == t || pre <= 0 then
      StartBetween(d, net, len, o, t);
      Met(d, net, len, o, t, Trivial(o), Trivial(t))
    else
      var hnp, tnp := Nearest(net, o, t), Nearest(net, t, o);
      StepNearer(d, net, len, o, t);
      if hnp.IsNull() || tnp.IsNull() then NullPath
      else
        Choice(HeadCandidate(net, o, t, Squeezed(d, net, len, hnp.Target(), t, pre - 1)),
               TailCandidate(net, o, t, Squeezed(d, net, len, o, tnp.Target(), pre - 1)))
  }

  /** It is null exactly when the search gives up, and otherwise a good path between the ends. */
  lemma {:induction false} SqueezedOk(d: Distance, net: Network, len: nat, o: NodeId, t: NodeId, pre: int)
    requires NetworkOk(d, net, len) && o in net && t in net
    ensures Squeezed(d, net, len, o, t, pre).IsNull() <==> GivesUp(d, net, len, o, t, pre)
    ensures Squeezed(d, net, len, o, t, pre).IsNull() ==> Squeezed(d, net, len, o, t, pre) == NullPath
    ensures !Squeezed(d, net, len, o, t, pre).IsNull() ==> Connects(d, Squeezed(d, net, len, o, t, pre), o, t)
    decreases if pre > 0 then pre else 0
  {
    hide NetworkOk, Nearest, Connects, Affinity, HeadCandidate, TailCandidate, Between, Stuck, Met;
    if o == t || pre <= 0 {
      StartBetween(d, net, len, o, t);
      MetOk(d, net, len, o, t, Trivial(o), Trivial(t));
    } else {
      var hnp, tnp := Nearest(net, o, t), Nearest(net, t, o);
      StepNearer(d, net, len, o, t);
      if !hnp.IsNull() && !tnp.IsNull() {
        SqueezedOk(d, net, len, hnp.Target(), t, pre - 1);
        SqueezedOk(d, net, len, o, tnp.Target(), pre - 1);
        CandidatesOk(d, net, len, o, t, Squeezed(d, net, len, hnp.Target(), t, pre - 1),
                     Squeezed(d, net, len, o, tnp.Target(), pre - 1));
      }
    }
  }

  /** Pick the best, as the source does. */
  function Choice(hp: Path, tp: Path): Path {
    if tp.IsNull() || hp.weight <= tp.weight then hp else tp
  }

  lemma CandidatesOk(d: Distance, net: Network, len: nat, o: NodeId, t: NodeId, htp: Path, thp: Path)
    requires NetworkOk(d, net, len) && o in net && t in net && o != t
    requires !Nearest(net, o, t).IsNull() && !Nearest(net, t, o).IsNull()
    requires !htp.IsNull() ==> Connects(d, htp, Nearest(net, o, t).Target(), t)
    requires !thp.IsNull() ==> Connects(d, thp, o, Nearest(net, t, o).Target())
    ensures !htp.IsNull() ==> Nearest(net, o, t).Target() == htp.start
    ensures !thp.IsNull() ==> thp.Target() == Reversed(Nearest(net, t, o)).start
    ensures HeadCandidate(net, o, t, htp).IsNull() <==> htp.IsNull()
    ensures htp.IsNull() ==> HeadCandidate(net, o, t, htp) == NullPath
    ensures !htp.IsNull() ==> HeadCandidate(net, o, t, htp).weight == Nearest(net, o, t).weight + htp.weight
    ensures !thp.IsNull() ==> TailCandidate(net, o, t, thp).weight == thp.weight + Nearest(net, t, o).weight
    ensures TailCandidate(net, o, t, thp).IsNull() <==> thp.IsNull()
    ensures !htp.IsNull() ==> Connects(d, HeadCandidate(net, o, t, htp), o, t)
    ensures !thp.IsNull() ==>
      Connects(d, TailCandidate(net, o, t, thp), o, t) && TailCandidate(net, o, t, thp).weight >= 0.0
  {
    hide Affinity, Nearest, Nearer, Extend, Connects, Reversed, NetworkOk;
    NearestOk(net, o, t, d, len);
    NearestOk(net, t, o, d, len);
    NetworkMetric(d, net, len);
    var hnp, tnp := Nearest(net, o, t), Nearest(net, t, o);
    if !htp.IsNull() {
      ConnectsEnds(d, hnp, o, hnp.Target());
      ConnectsEnds(d, htp, hnp.Target(), t);
      ExtendConnects(d, hnp, htp, o, hnp.Target(), t);
      ExtendWeight(d, hnp, htp);
      ConnectsReal(d, net, len, Extend(hnp, htp), o, t);
    }
    ReversedConnects(d, tnp, t, tnp.Target());
    ConnectsEnds(d, Reversed(tnp), tnp.Target(), t);
    if !thp.IsNull() {
      ConnectsEnds(d, thp, o, tnp.Target());
      ExtendConnects(d, thp, Reversed(tnp), o, tnp.Target(), t);
      ExtendWeight(d, thp, Reversed(tnp));
      ReversedPath(d, tnp);
      ConnectsReal(d, net, len, Extend(thp, Reversed(tnp)), o, t);
    }
  }

  lemma NetworkMetric(d: Distance, net: Network, len: nat)
    requires NetworkOk(d, net, len)
    ensures Metric(d)
  {
  }

  /** Of two candidates the lighter one is returned. */
  lemma LighterCandidate(d: Distance, net: Network, len: nat, o: NodeId, t: NodeId, pre: int, htp: Path, thp: Path)
    requires NetworkOk(d, net, len) && o in net && t in net && o != t && pre > 0
    requires !Nearest(net, o, t).IsNull() && !Nearest(net, t, o).IsNull()
    requires Nearest(net, o, t).Target() in net && Nearest(net, t, o).Target() in net
    requires htp == Squeezed(d, net, len, Nearest(net, o, t).Target(), t, pre - 1) && !htp.IsNull()
    requires thp == Squeezed(d, net, len, o, Nearest(net, t, o).Target(), pre - 1)
    ensures Squeezed(d, net, len, o, t, pre).weight <= Nearest(net, o, t).weight + htp.weight
    ensures !thp.IsNull() ==> Squeezed(d, net, len, o, t, pre).weight <= thp.weight + Nearest(net, t, o).weight
  {
    hide Affinity, Nearest, Nearer, Connects, NetworkOk, GivesUp, HeadCandidate, TailCandidate;
    SqueezedOk(d, net, len, Nearest(net, o, t).Target(), t, pre - 1);
    SqueezedOk(d, net, len, o, Nearest(net, t, o).Target(), pre - 1);
    CandidatesOk(d, net, len, o, t, htp, thp);
  }

  /** squeezePath without postrecurse: it terminates, since each hop raises the affinity of the two
      ends; any path it finds is loop-free and no lighter than recorded; and it finds none exactly
      when GivesUp. */
  method SqueezePath(net: Network, origid: NodeId, targid: NodeId, prerecurse: int, ghost d: Distance, ghost len: nat)
      returns (p: Path)
    requires NetworkOk(d, net, len) && origid in net && targid in net
    ensures p == Squeezed(d, net, len, origid, targid, prerecurse)
    ensures p.IsNull() <==> GivesUp(d, net, len, origid, targid, prerecurse)
    ensures p.IsNull() || Connects(d, p, origid, targid)
    decreases if prerecurse > 0 then prerecurse else 0
  {
    hide Connects, Extend, Reversed, Affinity, Nearer, Nearest, Stuck, GivesUp, NetworkOk;
    SqueezedOk(d, net, len, origid, targid, prerecurse);
    if origid != targid && prerecurse > 0 {
      p := PreRecurse(net, origid, targid, prerecurse, d, len);
    } else {
      p := MeetInTheMiddle(net, origid, targid, d, len);
    }
  }

  /** The exploration through both ends' neighbours. */
  method PreRecurse(net: Network, origid: NodeId, targid: NodeId, prerecurse: int, ghost d: Distance, ghost len: nat)
      returns (p: Path)
    requires NetworkOk(d, net, len) && origid in net && targid in net && origid != targid && prerecurse > 0
    ensures p == Squeezed(d, net, len, origid, targid, prerecurse)
    decreases prerecurse, 0
  {
    hide Extend, Reversed, Affinity, Nearer, Connects, Nearest, Stuck, GivesUp, NetworkOk;
    var hnp := NearestNeighborPath(net, origid, targid, d, len);
    if hnp.IsNull() { return NullPath; }
    var tnp := NearestNeighborPath(net, targid, origid, d, len);
    if tnp.IsNull() { return NullPath; }
    StepNearer(d, net, len, origid, targid);
    var htp := SqueezePath(net, hnp.Target(), targid, prerecurse - 1, d, len);
    var thp := SqueezePath(net, origid, tnp.Target(), prerecurse - 1, d, len);
    SqueezedOk(d, net, len, hnp.Target(), targid, prerecurse - 1);
    SqueezedOk(d, net, len, origid, tnp.Target(), prerecurse - 1);
    CandidatesOk(d, net, len, origid, targid, htp, thp);
    var hp := if htp.IsNull() then NullPath else Extend(hnp, htp);
    var back := ReversePath(tnp);
    var tp := if thp.IsNull() then NullPath else Extend(thp, back);
    p := if tp.IsNull() || hp.weight <= tp.weight then hp else tp;
  }

  /** The loop that moves the two ends toward each other. */
  method MeetInTheMiddle(net: Network, origid: NodeId, targid: NodeId, ghost d: Distance, ghost len: nat) returns (p: Path)
    requires NetworkOk(d, net, len) && origid in net && targid in net
    ensures Between(d, net, len, origid, targid, Trivial(origid), Trivial(targid))
    ensures p == Met(d, net, len, origid, targid, Trivial(origid), Trivial(targid))
    ensures p.IsNull() <==> Stuck(d, net, len, origid, targid)
  {
    hide Extend, Reversed, Affinity, Nearer, Connects, Nearest, Between, Stuck, NetworkOk;
    StartBetween(d, net, len, origid, targid);
    MetOk(d, net, len, origid, targid, Trivial(origid), Trivial(targid));
    var hn, tn := origid, targid;
    var head, tail := Trivial(origid), Trivial(targid);
    AffinityBound(d, net, len, hn, tn);
    while hn != tn
      invariant Between(d, net, len, hn, tn, head, tail) && hn in net && tn in net && Affinity(hn, tn) <= 8 * len
      invariant Met(d, net, len, hn, tn, head, tail) == Met(d, net, len, origid, targid, Trivial(origid), Trivial(targid))
      decreases 8 * len - Affinity(hn, tn)
    {
      StepNearer(d, net, len, hn, tn);
      var hnp := NearestNeighborPath(net, hn, tn, d, len);
      if hnp.IsNull() { return NullPath; }
      var tnp := NearestNeighborPath(net, tn, hn, d, len);
      if tnp.IsNull() { return NullPath; }
      if hnp.weight <= tnp.weight {
        HeadStep(d, net, len, hn, tn, head, tail);
        head := Extend(head, hnp);
        hn := hnp.Target();
      } else {
        TailStep(d, net, len, hn, tn, head, tail);
        var back := ReversePath(tnp);
        tail := Extend(back, tail);
        tn := tnp.Target();
      }
    }
    Joined(d, net, len, hn, head, tail);
    p := Extend(head, tail);
  }

  lemma AffinityBound(d: Distance, net: Network, len: nat, x: NodeId, y: NodeId)
    requires NetworkOk(d, net, len) && x in net && y in net
    ensures Affinity(x, y) <= 8 * len
  {
    hide Affinity, Filed;
    AffinityFull(x, y);
  }

  // ---------- a path that is missed ----------

  const Orig: NodeId := [0x80]
  const Targ: NodeId := [0x00]
  const HeadSide: NodeId := [0x40]   // the origin's neighbour, which knows nobody
  const TailSide: NodeId := [0xC0]   // the target's neighbour, which knows the origin

  function OneHop(x: NodeId, y: NodeId): Path { Path(x, [Hop(0, y)], 1.0, 0) }

  const MissNet: Network := map[
    Orig := [[OneHop(Orig, HeadSide)], [OneHop(Orig, TailSide)]],
    Targ := [[OneHop(Targ, TailSide)]],
    HeadSide := [],
    TailSide := [[], [OneHop(TailSide, Orig)]]]

  const Unit: Distance := (x: NodeId, y: NodeId) => 1.0

  lemma ByteAffinity(a: bv8, b: bv8, k: nat)
    requires a != b && k < 8 && BitOf(Xor(a, b), k) && forall j :: 0 <= j < k ==> !BitOf(Xor(a, b), j)
    ensures Affinity([a], [b]) == k
  {
    hide BitOf, Xor;
    assert AffinityFrom([a], [b], 0) == FirstBit(Xor(a, b), 0);
  }

  lemma MissAffinities()
    ensures Affinity(Orig, Targ) == 0 && Affinity(Targ, Orig) == 0
    ensures Affinity(Orig, HeadSide) == 0 && Affinity(Targ, TailSide) == 0
    ensures Affinity(HeadSide, Targ) == 1 && Affinity(Orig, TailSide) == 1 && Affinity(TailSide, Orig) == 1
  {
    ByteAffinity(0x80, 0x00, 0);
    ByteAffinity(0x00, 0x80, 0);
    ByteAffinity(0x80, 0x40, 0);
    ByteAffinity(0x00, 0xC0, 0);
    ByteAffinity(0x40, 0x00, 1);
    ByteAffinity(0x80, 0xC0, 1);
    ByteAffinity(0xC0, 0x80, 1);
  }

  lemma OneHopGood(x: NodeId, y: NodeId)
    requires x != y
    ensures GoodPath(Unit, OneHop(x, y)) && OneHop(x, y).Target() == y
  {
    var p := OneHop(x, y);
    assert Span(Unit, p, 0, 0) == 0.0;
    assert Span(Unit, p, 0, 1) == 1.0;
  }

  lemma MissNetOk()
    ensures NetworkOk(Unit, MissNet, 1)
  {
    hide Affinity, GoodPath;
    MissAffinities();
    OneHopGood(Orig, HeadSide);
    OneHopGood(Orig, TailSide);
    OneHopGood(Targ, TailSide);
    OneHopGood(TailSide, Orig);
    forall x, k, i | x in MissNet && 0 <= k < |MissNet[x]| && 0 <= i < |MissNet[x][k]|
      ensures Filed(Unit, MissNet, x, k, MissNet[x][k][i])
    {
      assert i == 0;
    }
  }

  /** With prerecurse 1 squeezePath gives up between these two nodes, although both have neighbours
      and the origin reaches the target's neighbour. */
  lemma PathMissed()
    ensures NetworkOk(Unit, MissNet, 1) && Nearest(MissNet, Targ, Orig).Target() == TailSide
    ensures GivesUp(Unit, MissNet, 1, Orig, Targ, 1)
    ensures !GivesUp(Unit, MissNet, 1, Orig, TailSide, 0)
  {
    hide Affinity, NetworkOk;
    MissNetOk();
    MissAffinities();
    assert Nearest(MissNet, Orig, Targ) == OneHop(Orig, HeadSide);
    assert Nearest(MissNet, Targ, Orig) == OneHop(Targ, TailSide);
    assert Nearest(MissNet, HeadSide, Targ) == NullPath;
    assert Nearest(MissNet, Orig, TailSide) == OneHop(Orig, TailSide);
    assert Nearest(MissNet, TailSide, Orig) == OneHop(TailSide, Orig);
    assert !Stuck(Unit, MissNet, 1, TailSide, TailSide);
  }
}
