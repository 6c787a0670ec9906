/** shortestPath (test/route/main.cc): Dijkstra's algorithm with stale queue entries left in place. */
module ShortestPath {
  import opened Routes

  /** Neighbours and their distances, for every node. */
  type Graph = map<NodeId, map<NodeId, real>>

  ghost predicate GraphOk(g: Graph) {
    && [] !in g
    && (forall n, m :: Edge(g, n, m) ==> m in g && g[n][m] >= 0.0)
  }

  // ---------- walks ----------

  predicate Edge(g: Graph, n: NodeId, m: NodeId) { n in g && m in g[n] }

  predicate IsWalk(g: Graph, w: seq<NodeId>) {
    |w| > 0 && w[0] in g && forall i :: 0 <= i < |w| - 1 ==> Edge(g, w[i], w[i + 1])
  }

  predicate Joins(g: Graph, w: seq<NodeId>, a: NodeId, b: NodeId) {
    IsWalk(g, w) && w[0] == a && w[|w| - 1] == b
  }

  ghost function Length(g: Graph, w: seq<NodeId>): real
    requires IsWalk(g, w)
  {
    if |w| == 1 then 0.0
    else
      assert Edge(g, w[|w| - 2], w[|w| - 1]);
      Length(g, w[..|w| - 1]) + g[w[|w| - 2]][w[|w| - 1]]
  }

  function NodesOf(p: Path): (w: seq<NodeId>)
    ensures |w| == |p.hops| + 1 && forall i :: 0 <= i < |w| ==> w[i] == p.Node(i)
  {
    seq(|p.hops| + 1, i requires 0 <= i <= |p.hops| => p.Node(i))
  }

  // ---------- the search state ----------

  datatype Info = Info(weight: real, prev: NodeId)

  /** Best known weights, queue entries, and (history) the nodes expanded so far, in order. */
  datatype Search = Search(spi: map<NodeId, Info>, nq: set<(real, NodeId)>, done: seq<NodeId>)

  /** Every known weight is that of a walk whose inner nodes have been expanded. */
  ghost predicate Linked(g: Graph, a: NodeId, s: Search) {
    && a in s.spi && s.spi[a].weight == 0.0
    && (forall n :: n in s.spi ==> n in g)
    && (forall n :: n in s.done ==> n in s.spi)
    && (forall n :: n in s.spi && n != a ==>
          && s.spi[n].prev in s.done && Edge(g, s.spi[n].prev, n)
          && s.spi[n].weight == s.spi[s.spi[n].prev].weight + g[s.spi[n].prev][n])
  }

  /** Chains of prev run backward through the expansion order. */
  ghost predicate Ranked(a: NodeId, s: Search) {
    forall i :: 0 <= i < |s.done| && s.done[i] in s.spi && s.done[i] != a ==> s.spi[s.done[i]].prev in s.done[..i]
  }

  /** Entries are current or stale; a current entry is for a node not expanded yet. */
  ghost predicate Queued(s: Search) {
    && (forall e :: e in s.nq ==>
          e.1 in s.spi && s.spi[e.1].weight <= e.0 && (s.spi[e.1].weight == e.0 ==> e.1 !in s.done))
    && (forall n :: n in s.spi && n !in s.done ==> (s.spi[n].weight, n) in s.nq)
  }

  /** Expanded nodes weigh no more than k; queue entries no less. */
  ghost predicate Front(s: Search, k: real) {
    && k >= 0.0
    && (forall n :: n in s.done && n in s.spi ==> s.spi[n].weight <= k)
    && (forall e :: e in s.nq ==> k <= e.0)
  }

  /** No edge out of n offers anything better, for the neighbours already looked at. */
  predicate RelaxedTo(g: Graph, s: Search, n: NodeId, m: NodeId)
    requires Edge(g, n, m) && n in s.spi
  {
    m in s.spi && s.spi[m].weight <= s.spi[n].weight + g[n][m]
  }

  ghost predicate Relaxed(g: Graph, s: Search, but: NodeId, left: set<NodeId>) {
    forall n, m :: n in s.done && Edge(g, n, m) && n in s.spi && !(n == but && m in left) ==> RelaxedTo(g, s, n, m)
  }

  ghost predicate Inv(g: Graph, a: NodeId, b: NodeId, s: Search, k: real, but: NodeId, left: set<NodeId>) {
    && Linked(g, a, s) && Ranked(a, s) && Queued(s) && Front(s, k) && Relaxed(g, s, but, left)
    && (forall i, j :: 0 <= i < j < |s.done| ==> s.done[i] != s.done[j])
    && b !in s.done
  }

  // ---------- relaxing one edge ----------

  function Better(s: Search, n: NodeId, m: NodeId, w: real): Search {
    s.(spi := s.spi[m := Info(w, n)], nq := s.nq + {(w, m)})
  }

  /** The edge n-m is tried: the walk through n is lighter than anything known. */
  ghost predicate Improves(g: Graph, s: Search, n: NodeId, m: NodeId, k: real) {
    && n in s.done && n in s.spi && s.spi[n].weight == k && Edge(g, n, m) && g[n][m] >= 0.0 && m in g
    && (m in s.spi ==> k + g[n][m] < s.spi[m].weight)
  }

  lemma BetterNotDone(g: Graph, a: NodeId, s: Search, n: NodeId, m: NodeId, k: real)
    requires Linked(g, a, s) && Front(s, k) && Queued(s) && Improves(g, s, n, m, k)
    ensures m !in s.done && m != a && (k + g[n][m], m) !in s.nq
  {
  }

  lemma BetterLinked(g: Graph, a: NodeId, s: Search, n: NodeId, m: NodeId, k: real)
    requires Linked(g, a, s) && Ranked(a, s) && Improves(g, s, n, m, k) && m !in s.done && m != a
    ensures Linked(g, a, Better(s, n, m, k + g[n][m])) && Ranked(a, Better(s, n, m, k + g[n][m]))
  {
    BetterRanked(a, s, n, m, k + g[n][m]);
    hide Ranked;
  }

  lemma BetterRanked(a: NodeId, s: Search, n: NodeId, m: NodeId, w: real)
    requires Ranked(a, s) && m !in s.done
    ensures Ranked(a, Better(s, n, m, w))
  {
  }

  lemma BetterQueued(g: Graph, a: NodeId, s: Search, n: NodeId, m: NodeId, k: real)
    requires Queued(s) && Front(s, k) && Improves(g, s, n, m, k) && m !in s.done
    ensures Queued(Better(s, n, m, k + g[n][m])) && Front(Better(s, n, m, k + g[n][m]), k)
  {
  }

  lemma BetterRelaxed(g: Graph, a: NodeId, s: Search, n: NodeId, m: NodeId, k: real, left: set<NodeId>)
    requires Linked(g, a, s) && Relaxed(g, s, n, left) && Improves(g, s, n, m, k) && m !in s.done
    ensures Relaxed(g, Better(s, n, m, k + g[n][m]), n, left - {m})
  {
    var s' := Better(s, n, m, k + g[n][m]);
    forall x, y | x in s'.done && Edge(g, x, y) && x in s'.spi && !(x == n && y in left - {m}) ensures RelaxedTo(g, s', x, y) {
      if !(x == n && y == m) { assert RelaxedTo(g, s, x, y); }
    }
  }

  lemma BetterInv(g: Graph, a: NodeId, b: NodeId, s: Search, n: NodeId, m: NodeId, k: real, left: set<NodeId>)
    requires Inv(g, a, b, s, k, n, left) && Improves(g, s, n, m, k)
    ensures Inv(g, a, b, Better(s, n, m, k + g[n][m]), k, n, left - {m})
    ensures (k + g[n][m], m) !in s.nq
  {
    hide Linked, Ranked, Queued, Front, Relaxed, Improves;
    BetterNotDone(g, a, s, n, m, k);
    BetterLinked(g, a, s, n, m, k);
    BetterQueued(g, a, s, n, m, k);
    BetterRelaxed(g, a, s, n, m, k, left);
  }

  /** An edge that offers nothing better is relaxed as it stands. */
  lemma KeepInv(g: Graph, a: NodeId, b: NodeId, s: Search, n: NodeId, m: NodeId, k: real, left: set<NodeId>)
    requires Inv(g, a, b, s, k, n, left) && Edge(g, n, m) && n in s.spi && s.spi[n].weight == k
    requires m in s.spi && s.spi[m].weight <= k + g[n][m]
    ensures Inv(g, a, b, s, k, n, left - {m})
  {
    hide Linked, Ranked, Queued, Front;
  }

  // ---------- taking the next entry ----------

  lemma {:induction false} LeastEntry(nq: set<(real, NodeId)>) returns (e: (real, NodeId))
    requires nq != {}
    ensures e in nq && forall f :: f in nq ==> e.0 <= f.0
  {
    var x :| x in nq;
    if nq == {x} {
      e := x;
    } else {
      var rest := nq - {x};
      var y := LeastEntry(rest);
      e := if x.0 <= y.0 then x else y;
      assert forall f :: f in nq ==> f == x || f in rest;
    }
  }

  /** A stale entry is dropped. */
  lemma StaleInv(g: Graph, a: NodeId, b: NodeId, s: Search, k: real, e: (real, NodeId))
    requires Inv(g, a, b, s, k, a, {}) && e in s.nq && (forall f :: f in s.nq ==> e.0 <= f.0)
    requires s.spi[e.1].weight != e.0
    ensures s.spi[e.1].weight < e.0
    ensures Inv(g, a, b, s.(nq := s.nq - {e}), e.0, a, {})
  {
    var s' := s.(nq := s.nq - {e});
    assert Linked(g, a, s') && Ranked(a, s');
    assert Relaxed(g, s', a, {}) by {
      forall n, m | n in s'.done && Edge(g, n, m) && n in s'.spi ensures RelaxedTo(g, s', n, m) { assert RelaxedTo(g, s, n, m); }
    }
  }

  /** A current entry: its node is expanded, all of its edges still to be looked at. */
  lemma ExpandInv(g: Graph, a: NodeId, b: NodeId, s: Search, k: real, e: (real, NodeId))
    requires Inv(g, a, b, s, k, a, {}) && e in s.nq && (forall f :: f in s.nq ==> e.0 <= f.0)
    requires e.1 in s.spi && s.spi[e.1].weight == e.0 && e.1 != b && e.1 in g
    ensures Inv(g, a, b, s.(nq := s.nq - {e}, done := s.done + [e.1]), e.0, e.1, g[e.1].Keys)
    ensures e.1 !in s.done
  {
    hide Linked, Ranked, Queued, Front, Relaxed;
    ExpandQueued(g, s, k, e);
    ExpandLinked(g, a, s, e);
    PrevDone(g, a, s, e.1);
    ExpandRanked(a, s, e);
    ExpandRelaxed(g, s, e, a);
  }

  lemma ExpandQueued(g: Graph, s: Search, k: real, e: (real, NodeId))
    requires Queued(s) && Front(s, k) && e in s.nq && (forall f :: f in s.nq ==> e.0 <= f.0)
    requires e.1 in s.spi && s.spi[e.1].weight == e.0
    ensures e.1 !in s.done
    ensures Queued(s.(nq := s.nq - {e}, done := s.done + [e.1])) && Front(s.(nq := s.nq - {e}, done := s.done + [e.1]), e.0)
  {
  }

  lemma ExpandLinked(g: Graph, a: NodeId, s: Search, e: (real, NodeId))
    requires Linked(g, a, s) && e.1 in s.spi
    ensures Linked(g, a, s.(nq := s.nq - {e}, done := s.done + [e.1]))
  {
  }

  lemma PrevDone(g: Graph, a: NodeId, s: Search, n: NodeId)
    requires Linked(g, a, s) && n in s.spi
    ensures n == a || s.spi[n].prev in s.done
  {
  }

  lemma ExpandRanked(a: NodeId, s: Search, e: (real, NodeId))
    requires Ranked(a, s) && e.1 in s.spi && (e.1 == a || s.spi[e.1].prev in s.done)
    ensures Ranked(a, s.(nq := s.nq - {e}, done := s.done + [e.1]))
  {
    var done := s.done + [e.1];
    forall i | 0 <= i < |done| && done[i] in s.spi && done[i] != a ensures s.spi[done[i]].prev in done[..i] {
      if i < |s.done| {
        assert done[..i] == s.done[..i];
      } else {
        assert done[..i] == s.done;
      }
    }
  }

  lemma ExpandRelaxed(g: Graph, s: Search, e: (real, NodeId), a: NodeId)
    requires Relaxed(g, s, a, {}) && e.1 in s.spi && e.1 in g
    ensures Relaxed(g, s.(nq := s.nq - {e}, done := s.done + [e.1]), e.1, g[e.1].Keys)
  {
    var s' := s.(nq := s.nq - {e}, done := s.done + [e.1]);
    forall n, m | n in s'.done && Edge(g, n, m) && n in s'.spi && !(n == e.1 && m in g[e.1].Keys) ensures RelaxedTo(g, s', n, m) {
      assert RelaxedTo(g, s, n, m);
    }
  }

  lemma NoneLeft(g: Graph, a: NodeId, b: NodeId, s: Search, k: real, n: NodeId)
    requires Inv(g, a, b, s, k, n, {})
    ensures Inv(g, a, b, s, k, a, {})
  {
    hide Linked, Ranked, Queued, Front;
  }

  // ---------- lower bounds ----------

  lemma LastStep(g: Graph, w: seq<NodeId>)
    requires GraphOk(g) && IsWalk(g, w) && |w| > 1
    ensures IsWalk(g, w[..|w| - 1]) && Edge(g, w[|w| - 2], w[|w| - 1])
    ensures g[w[|w| - 2]][w[|w| - 1]] >= 0.0
    ensures Length(g, w) == Length(g, w[..|w| - 1]) + g[w[|w| - 2]][w[|w| - 1]]
  {
    hide GraphOk, IsWalk;
    InitWalk(g, w);
    EdgeWeight(g, w[|w| - 2], w[|w| - 1]);
  }

  lemma InitWalk(g: Graph, w: seq<NodeId>)
    requires IsWalk(g, w) && |w| > 1
    ensures IsWalk(g, w[..|w| - 1]) && Edge(g, w[|w| - 2], w[|w| - 1])
  {
    hide Edge;
    var v := w[..|w| - 1];
    forall i | 0 <= i < |v| - 1 ensures Edge(g, v[i], v[i + 1]) { assert Edge(g, w[i], w[i + 1]); }
    var last := |w| - 2;
    assert Edge(g, w[last], w[last + 1]);
  }

  lemma EdgeWeight(g: Graph, n: NodeId, m: NodeId)
    requires GraphOk(g) && Edge(g, n, m)
    ensures g[n][m] >= 0.0
  {
  }

  /** Known nodes are expanded or queued. */
  lemma DoneOrQueued(s: Search, n: NodeId, lim: real)
    requires Queued(s) && n in s.spi && forall e :: e in s.nq ==> lim <= e.0
    ensures n in s.done || (s.nq != {} && lim <= s.spi[n].weight)
  {
    if n !in s.done { assert (s.spi[n].weight, n) in s.nq; }
  }

  lemma EdgeRelaxed(g: Graph, s: Search, a: NodeId, m: NodeId, n: NodeId)
    requires Relaxed(g, s, a, {}) && m in s.done && m in s.spi && Edge(g, m, n)
    ensures n in s.spi && s.spi[n].weight <= s.spi[m].weight + g[m][n]
  {
    assert RelaxedTo(g, s, m, n);
  }

  /** Every walk from a stays among expanded nodes that weigh no more than it, or weighs at least
      `lim`, the least weight in the queue. */
  lemma {:induction false} WalkBound(g: Graph, a: NodeId, b: NodeId, s: Search, k: real, lim: real, w: seq<NodeId>)
    requires GraphOk(g) && Inv(g, a, b, s, k, a, {}) && IsWalk(g, w) && w[0] == a
    requires forall e :: e in s.nq ==> lim <= e.0
    ensures (w[|w| - 1] in s.done && w[|w| - 1] in s.spi && s.spi[w[|w| - 1]].weight <= Length(g, w))
         || (s.nq != {} && lim <= Length(g, w))
  {
    hide Ranked, Front, Relaxed, Queued, Linked, Length, GraphOk;
    SourceWeight(g, a, s);
    if |w| == 1 {
      OneNode(g, w);
      DoneOrQueued(s, a, lim);
    } else {
      var m, n := w[|w| - 2], w[|w| - 1];
      LastStep(g, w);
      WalkBound(g, a, b, s, k, lim, w[..|w| - 1]);
      if m in s.done && m in s.spi && s.spi[m].weight <= Length(g, w[..|w| - 1]) {
        EdgeRelaxed(g, s, a, m, n);
        DoneOrQueued(s, n, lim);
      }
    }
  }

  lemma OneNode(g: Graph, w: seq<NodeId>)
    requires IsWalk(g, w) && |w| == 1
    ensures Length(g, w) == 0.0
  {
  }

  // ---------- the walk back ----------

  /** A suffix of a walk, and the step before it. */
  lemma {:induction false} LengthFront(g: Graph, n: NodeId, w: seq<NodeId>)
    requires IsWalk(g, w) && Edge(g, n, w[0])
    ensures IsWalk(g, [n] + w) && Length(g, [n] + w) == g[n][w[0]] + Length(g, w)
    decreases |w|
  {
    var x := [n] + w;
    assert forall i :: 0 < i < |x| ==> x[i] == w[i - 1];
    if |w| == 1 {
      assert x[..1] == [n];
      assert Length(g, [n]) == 0.0;
    } else {
      var v := w[..|w| - 1];
      assert forall i :: 0 <= i < |v| ==> v[i] == w[i];
      assert IsWalk(g, v);
      LengthFront(g, n, v);
      assert x[..|x| - 1] == [n] + v;
    }
  }

  /** p runs backward along w. */
  ghost predicate Mirrors(p: Path, w: seq<NodeId>) {
    |w| == |p.hops| + 1 && forall i :: 0 <= i <= |p.hops| ==> p.Node(i) == w[|p.hops| - i]
  }

  lemma MirrorStep(p: Path, w: seq<NodeId>, n: NodeId)
    requires Mirrors(p, w)
    ensures Mirrors(p.(hops := p.hops + [Hop(0, n)]), [n] + w)
  {
    var q := p.(hops := p.hops + [Hop(0, n)]);
    forall i | 0 <= i <= |q.hops| ensures q.Node(i) == ([n] + w)[|q.hops| - i] {
      if i < |q.hops| { assert q.Node(i) == p.Node(i); }
    }
  }

  lemma MirrorWeight(p: Path, w: seq<NodeId>, weight: real)
    requires Mirrors(p, w)
    ensures Mirrors(p.(weight := weight), w)
  {
    assert forall i :: 0 <= i <= |p.hops| ==> p.(weight := weight).Node(i) == p.Node(i);
  }

  lemma MirrorReversed(p: Path, w: seq<NodeId>)
    requires Mirrors(p, w)
    ensures NodesOf(Reversed(p)) == w
  {
    hide Reversed;
    ReversedNode(p, 0);
    forall k | 0 <= k < |w| ensures NodesOf(Reversed(p))[k] == w[k] { ReversedNode(p, k); }
  }

  /** The walk from n to b through prev has what is missing from n's weight to b's. */
  ghost predicate Reaches(g: Graph, s: Search, n: NodeId, b: NodeId, w: seq<NodeId>) {
    Joins(g, w, n, b) && n in s.spi && b in s.spi && s.spi[n].weight + Length(g, w) == s.spi[b].weight
  }

  lemma ReachesBack(g: Graph, a: NodeId, s: Search, n: NodeId, b: NodeId, w: seq<NodeId>)
    requires Linked(g, a, s) && Reaches(g, s, n, b, w) && n != a
    ensures s.spi[n].prev in s.spi && Reaches(g, s, s.spi[n].prev, b, [s.spi[n].prev] + w)
  {
    LengthFront(g, s.spi[n].prev, w);
  }

  /** The loop that follows prev from b to a ends, because expansion order decreases. */
  method WalkBack(g: Graph, a: NodeId, b: NodeId, spi: map<NodeId, Info>, ghost s: Search) returns (p: Path)
    requires GraphOk(g) && spi == s.spi && Linked(g, a, s) && Ranked(a, s) && b in spi && b !in s.done
    ensures p.start == a && Joins(g, NodesOf(p), a, b)
    ensures Length(g, NodesOf(p)) == p.weight == spi[b].weight
  {
    hide Length, Linked, Ranked, Reversed;
    p := Path(b, [], 0.0, 0);
    var n := b;
    ghost var w, r := [b], |s.done|;
    StartBack(g, a, s, b);
    while n != a
      invariant Mirrors(p, w) && Reaches(g, s, n, b, w) && p.start == b
      invariant 0 <= r <= |s.done| && (n != a ==> spi[n].prev in s.done[..r])
      decreases r
    {
      ReachesBack(g, a, s, n, b, w);
      var m := spi[n].prev;
      ghost var i :| 0 <= i < r && s.done[i] == m;
      RankStep(a, s, i);
      MirrorStep(p, w, m);
      p := p.(hops := p.hops + [Hop(0, m)]);
      w, r, n := [m] + w, i, m;
    }
    MirrorWeight(p, w, spi[b].weight);
    p := p.(weight := spi[b].weight);
    MirrorReversed(p, w);
    SourceWeight(g, a, s);
    ghost var q := Reversed(p);
    ReversedEnds(p, w, a);
    p := ReversePath(p);
  }

  lemma ReversedEnds(p: Path, w: seq<NodeId>, a: NodeId)
    requires Mirrors(p, w) && w[0] == a
    ensures Reversed(p).start == a && Reversed(p).weight == p.weight
  {
    assert p.Target() == p.Node(|p.hops|);
  }

  lemma SourceWeight(g: Graph, a: NodeId, s: Search)
    requires Linked(g, a, s)
    ensures a in s.spi && s.spi[a].weight == 0.0
  {
  }

  lemma StartBack(g: Graph, a: NodeId, s: Search, b: NodeId)
    requires Linked(g, a, s) && b in s.spi
    ensures Reaches(g, s, b, b, [b])
    ensures b != a ==> s.spi[b].prev in s.done[..|s.done|]
  {
    assert s.done[..|s.done|] == s.done;
  }

  lemma RankStep(a: NodeId, s: Search, i: nat)
    requires Ranked(a, s) && i < |s.done|
    ensures s.done[i] in s.spi && s.done[i] != a ==> s.spi[s.done[i]].prev in s.done[..i]
  {
  }

  // ---------- the search ----------

  ghost predicate Unreachable(g: Graph, a: NodeId, b: NodeId) {
    forall w :: !Joins(g, w, a, b)
  }

  ghost predicate NoLighter(g: Graph, a: NodeId, b: NodeId, k: real) {
    forall w :: Joins(g, w, a, b) ==> k <= Length(g, w)
  }

  lemma StartInv(g: Graph, a: NodeId, b: NodeId)
    requires a in g
    ensures Inv(g, a, b, Search(map[a := Info(0.0, a)], {(0.0, a)}, []), 0.0, a, {})
  {
  }

  /** The queue ran empty: b cannot be reached. */
  lemma EmptyQueue(g: Graph, a: NodeId, b: NodeId, s: Search, k: real)
    requires GraphOk(g) && Inv(g, a, b, s, k, a, {}) && s.nq == {}
    ensures Unreachable(g, a, b)
  {
    forall w | Joins(g, w, a, b) ensures false { WalkBound(g, a, b, s, k, k, w); }
  }

  /** b came off the queue: its entry is current and nothing is lighter. */
  lemma TargetFound(g: Graph, a: NodeId, b: NodeId, s: Search, k: real, e: (real, NodeId))
    requires GraphOk(g) && Inv(g, a, b, s, k, a, {}) && e in s.nq && e.1 == b && (forall f :: f in s.nq ==> e.0 <= f.0)
    ensures b in s.spi && s.spi[b].weight == e.0 && NoLighter(g, a, b, e.0)
  {
    hide Ranked, Linked, Relaxed;
    assert (s.spi[b].weight, b) in s.nq;
    forall w | Joins(g, w, a, b) ensures e.0 <= Length(g, w) { WalkBound(g, a, b, s, k, e.0, w); }
  }

  lemma InvParts(g: Graph, a: NodeId, b: NodeId, s: Search, k: real, but: NodeId, left: set<NodeId>)
    requires Inv(g, a, b, s, k, but, left)
    ensures Linked(g, a, s) && Ranked(a, s) && b !in s.done && |s.done| <= |g.Keys|
    ensures forall e :: e in s.nq ==> e.1 in s.spi && e.1 in g
    ensures forall n :: n in s.done ==> n in s.spi && n in g
  {
    hide Ranked, Relaxed, Front;
    DoneBound(g.Keys, s.done);
  }

  lemma {:induction false} DoneBound(keys: set<NodeId>, done: seq<NodeId>)
    requires (forall n :: n in done ==> n in keys) && forall i, j :: 0 <= i < j < |done| ==> done[i] != done[j]
    ensures |done| <= |keys|
    decreases |done|
  {
    if done != [] {
      var x, rest := done[|done| - 1], done[..|done| - 1];
      assert x !in rest;
      DoneBound(keys - {x}, rest);
      assert x in keys && |keys - {x}| == |keys| - 1;
    }
  }

  /** shortestPath() */
  method FindShortest(g: Graph, a: NodeId, b: NodeId) returns (p: Path)
    requires GraphOk(g) && a in g && b in g
    ensures p.IsNull() <==> Unreachable(g, a, b)
    ensures !p.IsNull() ==> Joins(g, NodesOf(p), a, b) && Length(g, NodesOf(p)) == p.weight
    ensures !p.IsNull() ==> NoLighter(g, a, b, p.weight)
  {
    hide Inv, Unreachable, NoLighter, Linked, Ranked, Length;
    var spi, nq := map[a := Info(0.0, a)], {(0.0, a)};
    ghost var done, k := [], 0.0;
    StartInv(g, a, b);
    while true
      invariant Inv(g, a, b, Search(spi, nq, done), k, a, {})
      decreases |g.Keys| - |done|, |nq|
    {
      InvParts(g, a, b, Search(spi, nq, done), k, a, {});
      if nq == {} {
        EmptyQueue(g, a, b, Search(spi, nq, done), k);
        return NullPath;
      }
      ghost var least := LeastEntry(nq);
      var e :| e in nq && forall f :: f in nq ==> e.0 <= f.0;
      ghost var s := Search(spi, nq, done);
      if e.1 == b {
        TargetFound(g, a, b, s, k, e);
        p := WalkBack(g, a, b, spi, s);
        Reached(g, a, b, NodesOf(p));
        return;
      }
      nq := nq - {e};
      if spi[e.1].weight != e.0 {
        StaleInv(g, a, b, s, k, e);
        assert e.0 > spi[e.1].weight;   // the assertion of the source
        k := e.0;
      } else {
        ExpandInv(g, a, b, s, k, e);
        done, k := done + [e.1], e.0;
        spi, nq := RelaxAll(g, a, b, e.1, e.0, spi, nq, done);
        InvParts(g, a, b, Search(spi, nq, done), k, a, {});
      }
    }
  }

  lemma Reached(g: Graph, a: NodeId, b: NodeId, w: seq<NodeId>)
    requires Joins(g, w, a, b)
    ensures !Unreachable(g, a, b)
  {
  }

  /** The loop over the neighbours of n. */
  method RelaxAll(g: Graph, a: NodeId, b: NodeId, n: NodeId, k: real, spi0: map<NodeId, Info>, nq0: set<(real, NodeId)>,
      ghost done: seq<NodeId>) returns (spi: map<NodeId, Info>, nq: set<(real, NodeId)>)
    requires GraphOk(g) && n in g && n in done && n in spi0 && spi0[n].weight == k
    requires Inv(g, a, b, Search(spi0, nq0, done), k, n, g[n].Keys)
    ensures Inv(g, a, b, Search(spi, nq, done), k, a, {})
  {
    hide Inv;
    spi, nq := spi0, nq0;
    var left := g[n].Keys;
    while left != {}
      invariant left <= g[n].Keys && n in spi && spi[n].weight == k
      invariant Inv(g, a, b, Search(spi, nq, done), k, n, left)
      decreases |left|
    {
      var m :| m in left;
      var w := k + g[n][m];
      if m in spi && w >= spi[m].weight {
        KeepInv(g, a, b, Search(spi, nq, done), n, m, k, left);
      } else {
        assert Edge(g, n, m);
        assert Improves(g, Search(spi, nq, done), n, m, k);
        BetterInv(g, a, b, Search(spi, nq, done), n, m, k, left);
        assert (w, m) !in nq;   // so a set of entries models the multi-map
        spi, nq := spi[m := Info(w, n)], nq + {(w, m)};
      }
      left := left - {m};
    }
    NoneLeft(g, a, b, Search(spi, nq, done), k, n);
  }
}
